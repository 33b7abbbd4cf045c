/**
 A reader of compact JSON in UTF-8, by sections 3 to 7 of RFC 8259 and section 3 of RFC 3629, independent of the printer
 that requests are measured with: it refuses overlong forms, encoded surrogates and raw control characters.
 */
module JsonReader {
  import opened Wrappers
  import opened RequestShape

  /** What was read, and the text behind it. */
  datatype Read<T> = Fail | Got(value: T, rest: seq<Byte>)

  // ----- characters of a string -----

  function HexValue(b: Byte): Option<int> {
    if 0x30 <= b <= 0x39 then Some(b - 0x30)
    else if 0x61 <= b <= 0x66 then Some(b - 0x61 + 10)
    else if 0x41 <= b <= 0x46 then Some(b - 0x41 + 10)
    else None
  }

  /** The four digits after `\u`. */
  function ReadHex(t: seq<Byte>): Option<int> {
    if |t| < 4 then None
    else
      var a, b, c, d := HexValue(t[0]), HexValue(t[1]), HexValue(t[2]), HexValue(t[3]);
      if a.Some? && b.Some? && c.Some? && d.Some? then
        Some(a.value * 0x1000 + b.value * 0x100 + c.value * 0x10 + d.value)
      else None
  }

  /** The second character of a two-character escape. */
  function ShortEscape(b: Byte): Option<Unit> {
    if b == 0x22 || b == 0x5C || b == 0x2F then Some(b)
    else if b == 0x62 then Some(0x08)
    else if b == 0x66 then Some(0x0C)
    else if b == 0x6E then Some(0x0A)
    else if b == 0x72 then Some(0x0D)
    else if b == 0x74 then Some(0x09)
    else None
  }

  function ReadEscape(t: seq<Byte>): Read<seq<Unit>> {
    if t == [] then Fail
    else if ShortEscape(t[0]).Some? then Got([ShortEscape(t[0]).value], t[1..])
    else if t[0] == 0x75 then
      var code := ReadHex(t[1..]);
      if code.Some? && 0 <= code.value < 0x1_0000 then Got([code.value], t[5..]) else Fail
    else Fail
  }

  /** The low six bits of a continuation byte. */
  function Continuation(t: seq<Byte>, i: nat): Option<int> {
    if i < |t| && 0x80 <= t[i] < 0xC0 then Some(t[i] - 0x80) else None
  }

  /** The code units of a character above U+FFFF. */
  function Pair(code: int): seq<Unit>
    requires 0x1_0000 <= code <= 0x10_FFFF
  {
    [0xD800 + (code - 0x1_0000) / 0x400, 0xDC00 + (code - 0x1_0000) % 0x400]
  }

  /** One character of several bytes. */
  function ReadUtf8(t: seq<Byte>): Read<seq<Unit>>
    requires t != []
  {
    var b, c, d := Continuation(t, 1), Continuation(t, 2), Continuation(t, 3);
    if 0xC0 <= t[0] < 0xE0 && b.Some? then
      var code := (t[0] - 0xC0) * 0x40 + b.value;
      if 0x80 <= code < 0x800 then Got([code], t[2..]) else Fail
    else if 0xE0 <= t[0] < 0xF0 && b.Some? && c.Some? then
      var code := (t[0] - 0xE0) * 0x1000 + b.value * 0x40 + c.value;
      if 0x800 <= code < 0x1_0000 && !(0xD800 <= code < 0xE000) then Got([code], t[3..]) else Fail
    else if 0xF0 <= t[0] < 0xF8 && b.Some? && c.Some? && d.Some? then
      var code := (t[0] - 0xF0) * 0x4_0000 + b.value * 0x1000 + c.value * 0x40 + d.value;
      if 0x1_0000 <= code <= 0x10_FFFF then Got(Pair(code), t[4..]) else Fail
    else Fail
  }

  /** One character, escaped or not. */
  function ReadCharacter(t: seq<Byte>): (r: Read<seq<Unit>>)
    ensures r.Got? ==> |r.rest| < |t|
  {
    if t == [] || t[0] < 0x20 || t[0] == 0x22 then Fail
    else if t[0] == 0x5C then ReadEscape(t[1..])
    else if t[0] < 0x80 then Got([t[0]], t[1..])
    else ReadUtf8(t)
  }

  /** The rest of a string after its opening quote. */
  function ReadString(t: seq<Byte>): (r: Read<seq<Unit>>)
    ensures r.Got? ==> |r.rest| < |t|
  {
    if t == [] then Fail
    else if t[0] == 0x22 then Got([], t[1..])
    else
      var first := ReadCharacter(t);
      if first.Fail? then Fail
      else
        var others := ReadString(first.rest);
        if others.Got? then Got(first.value + others.value, others.rest) else Fail
  }

  // ----- numbers -----

  predicate IsDigit(b: Byte) {
    0x30 <= b <= 0x39
  }

  predicate AllDigits(s: seq<Byte>) {
    s != [] && forall b | b in s :: IsDigit(b)
  }

  /** How many digits a text begins with. */
  function DigitRun(s: seq<Byte>): (n: nat)
    ensures n <= |s|
    ensures forall i | 0 <= i < n :: IsDigit(s[i])
  {
    if s == [] || !IsDigit(s[0]) then 0 else 1 + DigitRun(s[1..])
  }

  predicate IsExponent(s: seq<Byte>) {
    s == [] || ((s[0] == 0x65 || s[0] == 0x45) &&
                AllDigits(if |s| > 1 && (s[1] == 0x2B || s[1] == 0x2D) then s[2..] else s[1..]))
  }

  predicate IsFraction(s: seq<Byte>) {
    if s != [] && s[0] == 0x2E then DigitRun(s[1..]) > 0 && IsExponent(s[1 + DigitRun(s[1..])..]) else IsExponent(s)
  }

  predicate IsUnsigned(s: seq<Byte>) {
    var n := DigitRun(s);
    n > 0 && (s[0] == 0x30 ==> n == 1) && IsFraction(s[n..])
  }

  /** The numbers of section 6 of RFC 8259. */
  predicate IsNumber(s: seq<Byte>) {
    if s != [] && s[0] == 0x2D then IsUnsigned(s[1..]) else IsUnsigned(s)
  }

  predicate InNumbers(b: Byte) {
    IsDigit(b) || b == 0x2B || b == 0x2D || b == 0x2E || b == 0x45 || b == 0x65
  }

  function NumberRun(t: seq<Byte>): (n: nat)
    ensures n <= |t|
  {
    if t == [] || !InNumbers(t[0]) then 0 else 1 + NumberRun(t[1..])
  }

  // ----- values -----

  const NULL: seq<Byte> := [0x6E, 0x75, 0x6C, 0x6C]
  const TRUE: seq<Byte> := [0x74, 0x72, 0x75, 0x65]
  const FALSE: seq<Byte> := [0x66, 0x61, 0x6C, 0x73, 0x65]

  function ReadValue(t: seq<Byte>): (r: Read<Json>)
    ensures r.Got? ==> |r.rest| < |t|
    decreases |t|, 1
  {
    if t == [] then Fail
    else if t[0] == 0x22 then
      var s := ReadString(t[1..]);
      if s.Got? then Got(Text(s.value), s.rest) else Fail
    else if t[0] == 0x5B then
      if |t| > 1 && t[1] == 0x5D then Got(Array([]), t[2..])
      else
        var items := ReadItems(t[1..]);
        if items.Got? then Got(Array(items.value), items.rest) else Fail
    else if t[0] == 0x7B then
      if |t| > 1 && t[1] == 0x7D then Got(Object([]), t[2..])
      else
        var members := ReadMembers(t[1..]);
        if members.Got? then Got(Object(members.value), members.rest) else Fail
    else if NULL <= t then Got(Null, t[4..])
    else if TRUE <= t then Got(Bool(true), t[4..])
    else if FALSE <= t then Got(Bool(false), t[5..])
    else
      var n := NumberRun(t);
      if n > 0 && IsNumber(t[..n]) then Got(Number(t[..n]), t[n..]) else Fail
  }

  /** At least one item, up to the closing bracket. */
  function ReadItems(t: seq<Byte>): (r: Read<seq<Json>>)
    ensures r.Got? ==> |r.rest| < |t|
    decreases |t|, 2
  {
    var item := ReadValue(t);
    if item.Fail? || item.rest == [] then Fail
    else if item.rest[0] == 0x5D then Got([item.value], item.rest[1..])
    else if item.rest[0] == 0x2C then
      var others := ReadItems(item.rest[1..]);
      if others.Got? then Got([item.value] + others.value, others.rest) else Fail
    else Fail
  }

  function ReadMember(t: seq<Byte>): (r: Read<Member>)
    ensures r.Got? ==> |r.rest| < |t|
    decreases |t|, 2
  {
    if t == [] || t[0] != 0x22 then Fail
    else
      var key := ReadString(t[1..]);
      if key.Fail? || key.rest == [] || key.rest[0] != 0x3A then Fail
      else
        var value := ReadValue(key.rest[1..]);
        if value.Got? then Got(Member(key.value, value.value), value.rest) else Fail
  }

  /** At least one member, up to the closing brace. */
  function ReadMembers(t: seq<Byte>): (r: Read<seq<Member>>)
    ensures r.Got? ==> |r.rest| < |t|
    decreases |t|, 3
  {
    var member := ReadMember(t);
    if member.Fail? || member.rest == [] then Fail
    else if member.rest[0] == 0x7D then Got([member.value], member.rest[1..])
    else if member.rest[0] == 0x2C then
      var others := ReadMembers(member.rest[1..]);
      if others.Got? then Got([member.value] + others.value, others.rest) else Fail
    else Fail
  }

  /** The value a whole text stands for. */
  function ReadText(t: seq<Byte>): Option<Json> {
    var r := ReadValue(t);
    if r.Got? && r.rest == [] then Some(r.value) else None
  }

  // ----- printed strings are read back -----

  lemma HexIsRead(d: int)
    requires 0 <= d < 16
    ensures HexValue(Hex(d)) == Some(d)
  {
  }

  lemma DigitsMakeUnit(u: Unit)
    ensures u / 0x1000 < 16
    ensures u == u / 0x1000 * 0x1000 + u / 0x100 % 16 * 0x100 + u / 16 % 16 * 0x10 + u % 16
  {
    assert u / 0x100 == 16 * (u / 0x1000) + u / 0x100 % 16;
    assert u / 16 == 16 * (u / 0x100) + u / 16 % 16;
  }

  lemma EscapeIsRead(u: Unit, x: seq<Byte>)
    ensures ReadCharacter(Escape(u) + x) == Got([u], x)
  {
    var t := Escape(u) + x;
    DigitsMakeUnit(u);
    HexIsRead(u / 0x1000);
    HexIsRead(u / 0x100 % 16);
    HexIsRead(u / 16 % 16);
    HexIsRead(u % 16);
    var digits := t[1..][1..];
    assert digits[0] == Hex(u / 0x1000) && digits[1] == Hex(u / 0x100 % 16);
    assert digits[2] == Hex(u / 16 % 16) && digits[3] == Hex(u % 16);
    assert t[1..][5..] == x;
  }

  lemma ShortEscapeIsRead(b: Byte, x: seq<Byte>)
    requires ShortEscape(b).Some?
    ensures ReadCharacter([0x5C, b] + x) == Got([ShortEscape(b).value], x)
  {
    assert ([0x5C, b] + x)[1..] == [b] + x && ([b] + x)[1..] == x;
  }

  lemma TwoBytesAreRead(u: Unit, x: seq<Byte>)
    requires 0x80 <= u < 0x800
    ensures ReadCharacter([0xC0 + u / 64, 0x80 + u % 64] + x) == Got([u], x)
  {
    var t := [0xC0 + u / 64, 0x80 + u % 64] + x;
    assert t[2..] == x && Continuation(t, 1) == Some(u % 64);
  }

  lemma ThreeBytesAreRead(u: Unit, x: seq<Byte>)
    requires 0x800 <= u && !IsHigh(u) && !IsLow(u)
    ensures ReadCharacter([0xE0 + u / 4096, 0x80 + u / 64 % 64, 0x80 + u % 64] + x) == Got([u], x)
  {
    var t := [0xE0 + u / 4096, 0x80 + u / 64 % 64, 0x80 + u % 64] + x;
    assert t[3..] == x && Continuation(t, 1) == Some(u / 64 % 64) && Continuation(t, 2) == Some(u % 64);
    assert u / 64 == 64 * (u / 4096) + u / 64 % 64;
  }

  lemma UnitIsRead(u: Unit, x: seq<Byte>)
    ensures ReadCharacter(PrintUnit(u) + x) == Got([u], x)
  {
    if u == 0x22 { ShortEscapeIsRead(0x22, x); }
    else if u == 0x5C { ShortEscapeIsRead(0x5C, x); }
    else if u == 0x08 { ShortEscapeIsRead(0x62, x); }
    else if u == 0x09 { ShortEscapeIsRead(0x74, x); }
    else if u == 0x0A { ShortEscapeIsRead(0x6E, x); }
    else if u == 0x0C { ShortEscapeIsRead(0x66, x); }
    else if u == 0x0D { ShortEscapeIsRead(0x72, x); }
    else if u < 0x20 || IsHigh(u) || IsLow(u) { EscapeIsRead(u, x); }
    else if u < 0x80 { assert ([u] + x)[1..] == x; }
    else if u < 0x800 { TwoBytesAreRead(u, x); }
    else { ThreeBytesAreRead(u, x); }
  }

  lemma FourBytesAreRead(code: int, x: seq<Byte>)
    requires 0x1_0000 <= code <= 0x10_FFFF
    ensures ReadCharacter([0xF0 + code / 0x4_0000, 0x80 + code / 4096 % 64, 0x80 + code / 64 % 64, 0x80 + code % 64] +
                          x) ==
            Got(Pair(code), x)
  {
    var b, c, d := code / 4096 % 64, code / 64 % 64, code % 64;
    var t := [0xF0 + code / 0x4_0000, 0x80 + b, 0x80 + c, 0x80 + d] + x;
    assert t[4..] == x && Continuation(t, 1) == Some(b) && Continuation(t, 2) == Some(c)
           && Continuation(t, 3) == Some(d);
    SixBits(code);
  }

  lemma SixBits(code: nat)
    ensures code == code / 0x4_0000 * 0x4_0000 + code / 4096 % 64 * 0x1000 + code / 64 % 64 * 0x40 + code % 64
  {
    assert code / 4096 == 64 * (code / 0x4_0000) + code / 4096 % 64;
    assert code / 64 == 64 * (code / 4096) + code / 64 % 64;
  }

  lemma PairIsRead(high: Unit, low: Unit, x: seq<Byte>)
    requires IsHigh(high) && IsLow(low)
    ensures ReadCharacter(PrintPair(high, low) + x) == Got([high, low], x)
  {
    FourBytesAreRead(0x1_0000 + (high - 0xD800) * 0x400 + (low - 0xDC00), x);
    PairOfCode(high, low);
  }

  lemma PairOfCode(high: Unit, low: Unit)
    requires IsHigh(high) && IsLow(low)
    ensures Pair(0x1_0000 + (high - 0xD800) * 0x400 + (low - 0xDC00)) == [high, low]
  {
  }

  lemma NextCharacter(t: seq<Byte>, first: seq<Unit>, others: seq<Byte>, units: seq<Unit>, x: seq<Byte>)
    requires t != [] && t[0] != 0x22 && ReadCharacter(t) == Got(first, others) && ReadString(others) == Got(units, x)
    ensures ReadString(t) == Got(first + units, x)
  {
  }

  lemma Associate(a: seq<Byte>, b: seq<Byte>, c: seq<Byte>)
    ensures (a + b) + c == a + (b + c)
  {
  }

  lemma NextUnit(u: Unit, units: seq<Unit>, x: seq<Byte>)
    requires ReadString(PrintUnits(units) + ([0x22] + x)) == Got(units, x)
    ensures ReadString((PrintUnit(u) + PrintUnits(units)) + ([0x22] + x)) == Got([u] + units, x)
  {
    var others := PrintUnits(units) + ([0x22] + x);
    UnitIsRead(u, others);
    Associate(PrintUnit(u), PrintUnits(units), [0x22] + x);
    assert (PrintUnit(u) + others)[0] == PrintUnit(u)[0] != 0x22;
    NextCharacter(PrintUnit(u) + others, [u], others, units, x);
  }

  lemma NextPair(high: Unit, low: Unit, units: seq<Unit>, x: seq<Byte>)
    requires IsHigh(high) && IsLow(low) && ReadString(PrintUnits(units) + ([0x22] + x)) == Got(units, x)
    ensures ReadString((PrintPair(high, low) + PrintUnits(units)) + ([0x22] + x)) == Got([high, low] + units, x)
  {
    var others := PrintUnits(units) + ([0x22] + x);
    PairIsRead(high, low, others);
    Associate(PrintPair(high, low), PrintUnits(units), [0x22] + x);
    assert (PrintPair(high, low) + others)[0] == PrintPair(high, low)[0] != 0x22;
    NextCharacter(PrintPair(high, low) + others, [high, low], others, units, x);
  }

  lemma {:induction false} StringIsRead(units: seq<Unit>, x: seq<Byte>)
    ensures ReadString(PrintUnits(units) + ([0x22] + x)) == Got(units, x)
  {
    if units == [] {
      assert PrintUnits(units) + ([0x22] + x) == [0x22] + x && ([0x22] + x)[1..] == x;
    } else if StartsPair(units) {
      StringIsRead(units[2..], x);
      NextPair(units[0], units[1], units[2..], x);
      assert units == [units[0], units[1]] + units[2..];
    } else {
      StringIsRead(units[1..], x);
      NextUnit(units[0], units[1..], x);
      assert units == [units[0]] + units[1..];
    }
  }

  // ----- no text of a string is shorter -----

  lemma UnitSize(u: Unit)
    ensures |PrintUnits([u])| == |PrintUnit(u)| <= 6
  {
    assert [u][1..] == [] && PrintUnits([u]) == PrintUnit(u) + PrintUnits([u][1..]);
  }

  /** Printing together is never longer than printing apart. */
  lemma PrintsShorterTogether(u: Unit, units: seq<Unit>)
    ensures |PrintUnits([u] + units)| <= |PrintUnit(u)| + |PrintUnits(units)|
  {
    assert ([u] + units)[1..] == units;
    if StartsPair([u] + units) {
      assert ([u] + units)[2..] == units[1..];
      assert !StartsPair(units);
    }
  }

  lemma PairPrintsShorter(high: Unit, low: Unit, units: seq<Unit>)
    requires IsHigh(high) && IsLow(low)
    ensures |PrintUnits([high, low] + units)| == 4 + |PrintUnits(units)|
  {
    assert ([high, low] + units)[2..] == units;
  }

  /** A character read takes at least as many bytes as printing it does. */
  lemma CharacterIsNotShorter(t: seq<Byte>, units: seq<Unit>)
    requires ReadCharacter(t).Got?
    ensures |PrintUnits(ReadCharacter(t).value + units)| + |ReadCharacter(t).rest| <= |t| + |PrintUnits(units)|
  {
    var r := ReadCharacter(t);
    if |r.value| == 1 {
      PrintsShorterTogether(r.value[0], units);
      assert r.value == [r.value[0]];
    } else {
      PairPrintsShorter(r.value[0], r.value[1], units);
      assert r.value == [r.value[0], r.value[1]];
    }
  }

  lemma {:induction false} StringIsNotShorter(t: seq<Byte>)
    requires ReadString(t).Got?
    ensures |PrintUnits(ReadString(t).value)| + 1 + |ReadString(t).rest| <= |t|
  {
    if t[0] != 0x22 {
      var first := ReadCharacter(t);
      StringIsNotShorter(first.rest);
      CharacterIsNotShorter(t, ReadString(first.rest).value);
    }
  }

  // ----- printed numbers are read back -----

  lemma {:induction false} DigitRunIsAll(s: seq<Byte>, n: nat)
    requires n == DigitRun(s)
    ensures forall i | 0 <= i < n :: InNumbers(s[i])
  {
  }

  lemma ExponentBytes(s: seq<Byte>)
    requires IsExponent(s)
    ensures forall b | b in s :: InNumbers(b)
  {
    if s != [] {
      var k := if |s| > 1 && (s[1] == 0x2B || s[1] == 0x2D) then 2 else 1;
      forall i | 0 <= i < |s| ensures InNumbers(s[i]) {
        if i >= k {
          assert s[i] == s[k..][i - k];
        }
      }
    }
  }

  lemma FractionBytes(s: seq<Byte>)
    requires IsFraction(s)
    ensures forall b | b in s :: InNumbers(b)
  {
    if s != [] && s[0] == 0x2E {
      var n := DigitRun(s[1..]);
      ExponentBytes(s[1 + n..]);
      forall i | 0 <= i < |s| ensures InNumbers(s[i]) {
        if i > n {
          assert s[i] == s[1 + n..][i - 1 - n];
        } else if i > 0 {
          assert s[i] == s[1..][i - 1];
        }
      }
    } else {
      ExponentBytes(s);
    }
  }

  lemma UnsignedBytes(s: seq<Byte>)
    requires IsUnsigned(s)
    ensures s != [] && IsDigit(s[0]) && forall b | b in s :: InNumbers(b)
  {
    var n := DigitRun(s);
    FractionBytes(s[n..]);
    forall i | 0 <= i < |s| ensures InNumbers(s[i]) {
      if i >= n {
        assert s[i] == s[n..][i - n];
      }
    }
  }

  lemma NumberBytes(s: seq<Byte>)
    requires IsNumber(s)
    ensures s != [] && (s[0] == 0x2D || IsDigit(s[0])) && forall b | b in s :: InNumbers(b)
  {
    if s != [] && s[0] == 0x2D {
      UnsignedBytes(s[1..]);
      assert s == [s[0]] + s[1..];
    } else {
      UnsignedBytes(s);
    }
  }

  /** Nothing that continues a number. */
  predicate Ends(x: seq<Byte>) {
    x == [] || !InNumbers(x[0])
  }

  lemma {:induction false} RunIsText(s: seq<Byte>, x: seq<Byte>)
    requires (forall b | b in s :: InNumbers(b)) && Ends(x)
    ensures NumberRun(s + x) == |s|
  {
    if s == [] {
      assert s + x == x;
    } else {
      assert s[0] in s && forall b | b in s[1..] :: b in s;
      RunIsText(s[1..], x);
      assert (s + x)[1..] == s[1..] + x;
    }
  }

  lemma NumberIsRead(s: seq<Byte>, x: seq<Byte>)
    requires IsNumber(s) && Ends(x)
    ensures ReadValue(s + x) == Got(Number(s), x)
  {
    NumberBytes(s);
    RunIsText(s, x);
    var t := s + x;
    assert t[0] == s[0] && t[..|s|] == s && t[|s|..] == x;
  }

  // ----- printed values are read back -----

  /** Every number has a text of a number. */
  predicate HasNumbers(v: Json)
    decreases v
  {
    match v
    case Number(text) => IsNumber(text)
    case Array(items) => forall i | 0 <= i < |items| :: HasNumbers(items[i])
    case Object(members) => forall i | 0 <= i < |members| :: HasNumbers(members[i].value)
    case _ => true
  }

  /** A printed value never starts like the end of an array. */
  lemma PrintStarts(v: Json)
    requires HasNumbers(v)
    ensures Print(v) != [] && Print(v)[0] != 0x5D
  {
    if v.Number? {
      NumberBytes(v.text);
    }
  }

  lemma TextIsRead(units: seq<Unit>, x: seq<Byte>)
    ensures ReadValue(PrintText(units) + x) == Got(Text(units), x)
  {
    StringIsRead(units, x);
    OpenedText(units, x);
  }

  lemma LiteralIsRead(v: Json, x: seq<Byte>)
    requires v.Null? || v.Bool?
    ensures ReadValue(Print(v) + x) == Got(v, x)
  {
    var t := Print(v) + x;
    assert t[|Print(v)|..] == x && t[..|Print(v)|] == Print(v) && t[0] == Print(v)[0];
  }

  lemma Regroup(a: seq<Byte>, b: seq<Byte>, c: seq<Byte>, d: seq<Byte>)
    ensures (a + b + c) + d == a + (b + (c + d))
  {
  }

  lemma LastItem(t: seq<Byte>, item: Json, x: seq<Byte>)
    requires ReadValue(t) == Got(item, [0x5D] + x)
    ensures ReadItems(t) == Got([item], x)
  {
    assert ([0x5D] + x)[1..] == x;
  }

  lemma NextItem(t: seq<Byte>, item: Json, others: seq<Byte>, items: seq<Json>, x: seq<Byte>)
    requires ReadValue(t) == Got(item, [0x2C] + others) && ReadItems(others) == Got(items, x)
    ensures ReadItems(t) == Got([item] + items, x)
  {
    assert ([0x2C] + others)[1..] == others;
  }

  lemma {:induction false} ItemsAreRead(items: seq<Json>, x: seq<Byte>)
    requires items != [] && forall i | 0 <= i < |items| :: HasNumbers(items[i])
    ensures ReadItems(PrintItems(items) + ([0x5D] + x)) == Got(items, x)
    decreases items, 0
  {
    assert items == [items[0]] + items[1..];
    if |items| == 1 {
      ValueIsRead(items[0], [0x5D] + x);
      LastItem(Print(items[0]) + ([0x5D] + x), items[0], x);
      assert items == [items[0]];
    } else {
      var others := PrintItems(items[1..]) + ([0x5D] + x);
      Regroup(Print(items[0]), [0x2C], PrintItems(items[1..]), [0x5D] + x);
      ValueIsRead(items[0], [0x2C] + others);
      ItemsAreRead(items[1..], x);
      NextItem(Print(items[0]) + ([0x2C] + others), items[0], others, items[1..], x);
    }
  }

  lemma OneMember(key: seq<Unit>, value: Json, t: seq<Byte>, x: seq<Byte>)
    requires ReadValue(t) == Got(value, x)
    ensures ReadMember(PrintText(key) + ([0x3A] + t)) == Got(Member(key, value), x)
  {
    StringIsRead(key, [0x3A] + t);
    OpenedText(key, [0x3A] + t);
    assert ([0x3A] + t)[1..] == t;
  }

  lemma OpenedText(units: seq<Unit>, x: seq<Byte>)
    ensures PrintText(units) + x != [] && (PrintText(units) + x)[0] == 0x22
    ensures (PrintText(units) + x)[1..] == PrintUnits(units) + ([0x22] + x)
  {
    Regroup([0x22], PrintUnits(units), [0x22], x);
  }

  lemma {:induction false} MemberIsRead(m: Member, x: seq<Byte>)
    requires HasNumbers(m.value) && Ends(x)
    ensures ReadMember(PrintMember(m) + x) == Got(m, x)
    decreases m, 1
  {
    ValueIsRead(m.value, x);
    OneMember(m.key, m.value, Print(m.value) + x, x);
    Regroup(PrintText(m.key), [0x3A], Print(m.value), x);
  }

  lemma LastMember(t: seq<Byte>, member: Member, x: seq<Byte>)
    requires ReadMember(t) == Got(member, [0x7D] + x)
    ensures ReadMembers(t) == Got([member], x)
  {
    assert ([0x7D] + x)[1..] == x;
  }

  lemma NextMember(t: seq<Byte>, member: Member, others: seq<Byte>, members: seq<Member>, x: seq<Byte>)
    requires ReadMember(t) == Got(member, [0x2C] + others) && ReadMembers(others) == Got(members, x)
    ensures ReadMembers(t) == Got([member] + members, x)
  {
    assert ([0x2C] + others)[1..] == others;
  }

  lemma {:induction false} MembersAreRead(members: seq<Member>, x: seq<Byte>)
    requires members != [] && forall i | 0 <= i < |members| :: HasNumbers(members[i].value)
    ensures ReadMembers(PrintMembers(members) + ([0x7D] + x)) == Got(members, x)
    decreases members, 0
  {
    assert members == [members[0]] + members[1..];
    if |members| == 1 {
      MemberIsRead(members[0], [0x7D] + x);
      LastMember(PrintMember(members[0]) + ([0x7D] + x), members[0], x);
      assert members == [members[0]];
    } else {
      var others := PrintMembers(members[1..]) + ([0x7D] + x);
      Regroup(PrintMember(members[0]), [0x2C], PrintMembers(members[1..]), [0x7D] + x);
      MemberIsRead(members[0], [0x2C] + others);
      MembersAreRead(members[1..], x);
      NextMember(PrintMember(members[0]) + ([0x2C] + others), members[0], others, members[1..], x);
    }
  }

  lemma {:induction false} ArrayIsRead(items: seq<Json>, x: seq<Byte>)
    requires forall i | 0 <= i < |items| :: HasNumbers(items[i])
    ensures ReadValue(Print(Array(items)) + x) == Got(Array(items), x)
    decreases items, 1
  {
    var t := Print(Array(items)) + x;
    if items == [] {
      assert t == [0x5B, 0x5D] + x && t[2..] == x;
    } else {
      ItemsAreRead(items, x);
      PrintStarts(items[0]);
      assert t[0] == 0x5B && t[1..] == PrintItems(items) + ([0x5D] + x);
      assert t[1] == Print(items[0])[0];
    }
  }

  lemma {:induction false} ObjectIsRead(members: seq<Member>, x: seq<Byte>)
    requires forall i | 0 <= i < |members| :: HasNumbers(members[i].value)
    ensures ReadValue(Print(Object(members)) + x) == Got(Object(members), x)
    decreases members, 1
  {
    var t := Print(Object(members)) + x;
    if members == [] {
      assert t == [0x7B, 0x7D] + x && t[2..] == x;
    } else {
      MembersAreRead(members, x);
      ObjectStarts(members, x);
    }
  }

  lemma ObjectStarts(members: seq<Member>, x: seq<Byte>)
    requires members != []
    ensures var t := Print(Object(members)) + x;
            |t| > 1 && t[0] == 0x7B && t[1] == 0x22 && t[1..] == PrintMembers(members) + ([0x7D] + x)
  {
    Regroup([0x7B], PrintMembers(members), [0x7D], x);
    MembersStart(members, [0x7D] + x);
  }

  lemma MembersStart(members: seq<Member>, x: seq<Byte>)
    requires members != []
    ensures PrintMembers(members) + x != [] && (PrintMembers(members) + x)[0] == 0x22
  {
    var m := members[0];
    OpenedText(m.key, [0x3A] + Print(m.value));
    Associate(PrintText(m.key), [0x3A], Print(m.value));
    assert PrintMember(m) != [] && PrintMember(m)[0] == 0x22;
    if |members| > 1 {
      Regroup(PrintMember(m), [0x2C], PrintMembers(members[1..]), x);
    }
  }

  lemma {:induction false} ValueIsRead(v: Json, x: seq<Byte>)
    requires HasNumbers(v) && Ends(x)
    ensures ReadValue(Print(v) + x) == Got(v, x)
    decreases v, 2
  {
    match v
    case Number(text) => NumberIsRead(text, x);
    case Text(units) => TextIsRead(units, x);
    case Array(items) => ArrayIsRead(items, x);
    case Object(members) => ObjectIsRead(members, x);
    case _ => LiteralIsRead(v, x);
  }

  /** The printed text stands for the value it was printed from. */
  lemma PrintReadsBack(v: Json)
    requires HasNumbers(v)
    ensures ReadText(Print(v)) == Some(v)
  {
    ValueIsRead(v, []);
    assert Print(v) + [] == Print(v);
  }

  // ----- no text of a value is shorter -----

  lemma {:induction false} ItemsAreNotShorter(t: seq<Byte>)
    requires ReadItems(t).Got?
    ensures ReadItems(t).value != [] && |PrintItems(ReadItems(t).value)| + 1 + |ReadItems(t).rest| <= |t|
    decreases |t|, 2
  {
    var item := ReadValue(t);
    ValueIsNotShorter(t);
    if item.rest[0] == 0x2C {
      ItemsAreNotShorter(item.rest[1..]);
      ItemsCons(item.value, ReadItems(item.rest[1..]).value);
    }
  }

  lemma ItemsCons(item: Json, items: seq<Json>)
    requires items != []
    ensures PrintItems([item] + items) == Print(item) + [0x2C] + PrintItems(items)
  {
    assert ([item] + items)[1..] == items;
  }

  lemma {:induction false} MemberIsNotShorter(t: seq<Byte>)
    requires ReadMember(t).Got?
    ensures |PrintMember(ReadMember(t).value)| + |ReadMember(t).rest| <= |t|
    decreases |t|, 2
  {
    var key := ReadString(t[1..]);
    StringIsNotShorter(t[1..]);
    ValueIsNotShorter(key.rest[1..]);
  }

  lemma {:induction false} MembersAreNotShorter(t: seq<Byte>)
    requires ReadMembers(t).Got?
    ensures ReadMembers(t).value != [] && |PrintMembers(ReadMembers(t).value)| + 1 + |ReadMembers(t).rest| <= |t|
    decreases |t|, 3
  {
    var member := ReadMember(t);
    MemberIsNotShorter(t);
    if member.rest[0] == 0x2C {
      MembersAreNotShorter(member.rest[1..]);
      MembersCons(member.value, ReadMembers(member.rest[1..]).value);
    }
  }

  lemma MembersCons(member: Member, members: seq<Member>)
    requires members != []
    ensures PrintMembers([member] + members) == PrintMember(member) + [0x2C] + PrintMembers(members)
  {
    assert ([member] + members)[1..] == members;
  }

  lemma {:induction false} ValueIsNotShorter(t: seq<Byte>)
    requires ReadValue(t).Got?
    ensures |Print(ReadValue(t).value)| + |ReadValue(t).rest| <= |t|
    decreases |t|, 1
  {
    if t[0] == 0x22 {
      StringIsNotShorter(t[1..]);
    } else if t[0] == 0x5B {
      if !(|t| > 1 && t[1] == 0x5D) {
        ItemsAreNotShorter(t[1..]);
      }
    } else if t[0] == 0x7B {
      if !(|t| > 1 && t[1] == 0x7D) {
        MembersAreNotShorter(t[1..]);
      }
    }
  }

  /** And no text that stands for it is shorter: the printed text is the compact one. */
  lemma PrintIsShortest(t: seq<Byte>, v: Json)
    requires ReadText(t) == Some(v)
    ensures |Print(v)| <= |t|
  {
    ValueIsNotShorter(t);
  }
}
