/** The text that is hashed into a session signature, in UTF-8, is the compact JSON text of its tools and indicators. */
module SignatureText {
  import opened Wrappers
  import opened RequestShape
  import opened RollingHash
  import opened SessionSignature
  import JsonReader

  /** One code unit that is no surrogate, in UTF-8. */
  function Encode(u: Unit): seq<Byte> {
    if u < 0x80 then [u]
    else if u < 0x800 then [0xC0 + u / 64, 0x80 + u % 64]
    else [0xE0 + u / 4096, 0x80 + u / 64 % 64, 0x80 + u % 64]
  }

  /** A well-formed text in UTF-8. */
  function Utf8(units: seq<Unit>): seq<Byte> {
    if units == [] then []
    else if StartsPair(units) then PrintPair(units[0], units[1]) + Utf8(units[2..])
    else Encode(units[0]) + Utf8(units[1..])
  }

  predicate IsAscii(units: seq<Unit>) {
    forall u | u in units :: u < 0x80
  }

  lemma {:induction false} AsciiIsItself(units: seq<Unit>)
    requires IsAscii(units)
    ensures Utf8(units) == units
  {
    if units != [] {
      assert units[0] in units && forall u | u in units[1..] :: u in units;
      AsciiIsItself(units[1..]);
      assert units == [units[0]] + units[1..];
    }
  }

  lemma Utf8Pair(high: Unit, low: Unit, units: seq<Unit>)
    requires IsHigh(high) && IsLow(low)
    ensures Utf8([high, low] + units) == PrintPair(high, low) + Utf8(units)
  {
    assert ([high, low] + units)[2..] == units;
  }

  lemma Utf8One(u: Unit, units: seq<Unit>)
    requires !StartsPair([u] + units)
    ensures Utf8([u] + units) == Encode(u) + Utf8(units)
  {
    assert ([u] + units)[1..] == units;
  }

  lemma PairInFront(high: Unit, low: Unit, a: seq<Unit>, b: seq<Unit>)
    requires IsHigh(high) && IsLow(low) && Utf8(a + b) == Utf8(a) + Utf8(b)
    ensures Utf8(([high, low] + a) + b) == Utf8([high, low] + a) + Utf8(b)
  {
    assert ([high, low] + a) + b == [high, low] + (a + b);
    Utf8Pair(high, low, a + b);
    Utf8Pair(high, low, a);
    BytesAssociate(PrintPair(high, low), Utf8(a), Utf8(b));
  }

  lemma UnitInFront(u: Unit, a: seq<Unit>, b: seq<Unit>)
    requires !StartsPair([u] + a) && (a == [] ==> !IsHigh(u)) && Utf8(a + b) == Utf8(a) + Utf8(b)
    ensures Utf8(([u] + a) + b) == Utf8([u] + a) + Utf8(b)
  {
    assert ([u] + a) + b == [u] + (a + b);
    Utf8One(u, a + b);
    Utf8One(u, a);
    BytesAssociate(Encode(u), Utf8(a), Utf8(b));
  }

  /** Texts may be encoded apart unless a surrogate pair is cut. */
  lemma {:induction false} Utf8Concat(a: seq<Unit>, b: seq<Unit>)
    requires a == [] || !IsHigh(a[|a| - 1])
    ensures Utf8(a + b) == Utf8(a) + Utf8(b)
  {
    if a == [] {
      assert a + b == b;
    } else if StartsPair(a) {
      Utf8Concat(a[2..], b);
      PairInFront(a[0], a[1], a[2..], b);
      assert a == [a[0], a[1]] + a[2..];
    } else {
      Utf8Concat(a[1..], b);
      UnitInFront(a[0], a[1..], b);
      assert a == [a[0]] + a[1..];
    }
  }

  lemma BytesAssociate(a: seq<Byte>, b: seq<Byte>, c: seq<Byte>)
    ensures (a + b) + c == a + (b + c)
  {
  }

  // ----- quoted texts -----

  lemma QuotedUnitIsPrinted(u: Unit)
    ensures Utf8(QuotedUnit(u)) == PrintUnit(u)
    ensures QuotedUnit(u) != [] && !IsHigh(QuotedUnit(u)[|QuotedUnit(u)| - 1])
  {
    if |QuotedUnit(u)| > 1 {
      AsciiIsItself(QuotedUnit(u));
    } else {
      assert QuotedUnit(u) == [u] && [u][1..] == [];
      assert Utf8([u]) == Encode(u) + Utf8([u][1..]);
    }
  }

  lemma {:induction false} QuotedIsPrinted(name: Name)
    ensures Utf8(QuotedUnits(name)) == PrintUnits(name)
    ensures QuotedUnits(name) == [] || !IsHigh(QuotedUnits(name)[|QuotedUnits(name)| - 1])
  {
    if name != [] {
      if StartsPair(name) {
        QuotedIsPrinted(name[2..]);
        var q := QuotedUnits(name);
        assert q[2..] == QuotedUnits(name[2..]) && StartsPair(q);
      } else {
        QuotedIsPrinted(name[1..]);
        QuotedUnitIsPrinted(name[0]);
        Utf8Concat(QuotedUnit(name[0]), QuotedUnits(name[1..]));
      }
    }
  }

  lemma QuotedNameIsPrinted(name: Name)
    ensures Utf8(Quoted(name)) == PrintText(name) && !IsHigh(Quoted(name)[|Quoted(name)| - 1])
  {
    QuotedIsPrinted(name);
    Utf8Concat(QuotedUnits(name), [0x22]);
    Utf8Concat([0x22], QuotedUnits(name) + [0x22]);
    AsciiIsItself([0x22]);
    BytesAssociate([0x22], PrintUnits(name), [0x22]);
  }

  function Texts(names: seq<Name>): (r: seq<Json>)
    ensures |r| == |names| && forall i | 0 <= i < |r| :: r[i] == Text(names[i])
  {
    seq(|names|, i requires 0 <= i < |names| => Text(names[i]))
  }

  lemma {:induction false} ListIsPrinted(names: seq<Name>)
    ensures Utf8(QuotedList(names)) == PrintItems(Texts(names))
    ensures QuotedList(names) == [] || !IsHigh(QuotedList(names)[|QuotedList(names)| - 1])
  {
    if names != [] {
      QuotedNameIsPrinted(names[0]);
      if |names| > 1 {
        var rest := QuotedList(names[1..]);
        ListIsPrinted(names[1..]);
        assert Texts(names)[1..] == Texts(names[1..]);
        CommaBetween(Quoted(names[0]), rest);
        BytesAssociate(PrintText(names[0]), [0x2C], PrintItems(Texts(names[1..])));
        assert rest != [];
      }
    }
  }

  lemma CommaBetween(first: seq<Unit>, rest: seq<Unit>)
    requires first == [] || !IsHigh(first[|first| - 1])
    ensures Utf8(first + ([0x2C] + rest)) == Utf8(first) + ([0x2C] + Utf8(rest))
  {
    AsciiIsItself([0x2C]);
    Utf8Concat([0x2C], rest);
    Utf8Concat(first, [0x2C] + rest);
  }

  // ----- the whole text -----

  predicate IsPlain(units: seq<Unit>) {
    forall u | u in units :: 0x20 <= u < 0x80 && u != 0x22 && u != 0x5C
  }

  lemma {:induction false} PlainIsPrinted(units: seq<Unit>)
    requires IsPlain(units)
    ensures PrintUnits(units) == units
  {
    if units != [] {
      assert units[0] in units && forall u | u in units[1..] :: u in units;
      PlainIsPrinted(units[1..]);
      assert units == [units[0]] + units[1..];
    }
  }

  /** What the text stands for: an object with the two lists. */
  function Content(tools: seq<Name>, indicators: seq<Name>): Json {
    Object([Member(Ascii("tools"), Array(Texts(tools))), Member(Ascii("indicators"), Array(Texts(indicators)))])
  }

  lemma KeysArePlain()
    ensures IsPlain(Ascii("tools")) && IsPlain(Ascii("indicators"))
    ensures Ascii("{\"tools\":[") == [0x7B] + ([0x22] + Ascii("tools") + [0x22, 0x3A, 0x5B])
    ensures Ascii(",\"indicators\":[") == [0x2C] + ([0x22] + Ascii("indicators") + [0x22, 0x3A, 0x5B])
    ensures IsAscii(Ascii("{\"tools\":[")) && IsAscii(Ascii(",\"indicators\":["))
  {
  }

  lemma MemberIsPrinted(key: seq<Unit>, names: seq<Name>)
    requires IsPlain(key)
    ensures PrintMember(Member(key, Array(Texts(names)))) ==
            ([0x22] + key + [0x22, 0x3A, 0x5B]) + (PrintItems(Texts(names)) + [0x5D])
  {
    PlainIsPrinted(key);
  }

  lemma Flatten(a: seq<Byte>, p: seq<Byte>, t: seq<Byte>, e: seq<Byte>, s: seq<Byte>, q: seq<Byte>, i: seq<Byte>,
                z: seq<Byte>)
    ensures (a + (((p + (t + e)) + s) + (q + (i + e)))) + z == (a + p) + (t + (e + ((s + q) + (i + (e + z)))))
  {
    var y := q + (i + e);
    var w := s + y;
    BytesAssociate(p + (t + e), s, y);
    BytesAssociate(p, t + e, w);
    BytesAssociate(t, e, w);
    BytesAssociate(a, p, t + (e + w));
    BytesAssociate(a + p, t + (e + w), z);
    BytesAssociate(t, e + w, z);
    BytesAssociate(e, w, z);
    BytesAssociate(s, q, i + e);
    BytesAssociate(s + q, i + e, z);
    BytesAssociate(i, e, z);
  }

  lemma ContentIsPrinted(tools: seq<Name>, indicators: seq<Name>)
    ensures var t, i := PrintItems(Texts(tools)), PrintItems(Texts(indicators));
            Print(Content(tools, indicators)) ==
            Ascii("{\"tools\":[") + (t + ([0x5D] + (Ascii(",\"indicators\":[") + (i + [0x5D, 0x7D]))))
  {
    KeysArePlain();
    MemberIsPrinted(Ascii("tools"), tools);
    MemberIsPrinted(Ascii("indicators"), indicators);
    TwoMembers(Member(Ascii("tools"), Array(Texts(tools))), Member(Ascii("indicators"), Array(Texts(indicators))));
    var p, q := [0x22] + Ascii("tools") + [0x22, 0x3A, 0x5B], [0x22] + Ascii("indicators") + [0x22, 0x3A, 0x5B];
    Flatten([0x7B], p, PrintItems(Texts(tools)), [0x5D], [0x2C], q, PrintItems(Texts(indicators)), [0x7D]);
    assert [0x5D] + [0x7D] == [0x5D, 0x7D];
  }

  lemma TwoMembers(m: Member, n: Member)
    ensures Print(Object([m, n])) == ([0x7B] + ((PrintMember(m) + [0x2C]) + PrintMember(n))) + [0x7D]
  {
    assert [m, n][1..] == [n] && PrintMembers([n]) == PrintMember(n);
    assert PrintMembers([m, n]) == PrintMember(m) + [0x2C] + PrintMembers([m, n][1..]);
  }

  /** The hashed text is what `JSON.stringify` prints of the tools and the sorted indicators. */
  lemma TextIsPrinted(tools: seq<Name>, indicators: seq<Name>)
    ensures Utf8(SessionSignature.SignatureText(tools, indicators)) == Print(Content(tools, indicators))
  {
    var open, mid := Ascii("{\"tools\":["), Ascii(",\"indicators\":[");
    var t, i := QuotedList(tools), QuotedList(indicators);
    KeysArePlain();
    ListIsPrinted(tools);
    ListIsPrinted(indicators);
    AsciiIsItself(open);
    AsciiIsItself(mid);
    AsciiIsItself([0x5D]);
    AsciiIsItself([0x5D, 0x7D]);
    Utf8Concat(i, [0x5D, 0x7D]);
    Utf8Concat(mid, i + [0x5D, 0x7D]);
    Utf8Concat([0x5D], mid + (i + [0x5D, 0x7D]));
    Utf8Concat(t, [0x5D] + (mid + (i + [0x5D, 0x7D])));
    Utf8Concat(open, t + ([0x5D] + (mid + (i + [0x5D, 0x7D]))));
    ContentIsPrinted(tools, indicators);
  }

  /** And a JSON reader finds exactly them in it. */
  lemma TextReadsBack(tools: seq<Name>, indicators: seq<Name>)
    ensures JsonReader.ReadText(Utf8(SessionSignature.SignatureText(tools, indicators))) ==
            Some(Content(tools, indicators))
  {
    TextIsPrinted(tools, indicators);
    assert JsonReader.HasNumbers(Array(Texts(tools))) && JsonReader.HasNumbers(Array(Texts(indicators)));
    JsonReader.PrintReadsBack(Content(tools, indicators));
  }

  /** The hash of a signature is that of a text, and the text says what else the signature holds. */
  lemma HashIsOfContent(calls: seq<ToolCall>)
    ensures var s := SignatureOf(calls);
            exists text :: Utf8(text) == Print(Content(s.toolSequence, s.indicators)) && s.hash == HashText(text)
  {
    var s := SignatureOf(calls);
    TextIsPrinted(s.toolSequence, s.indicators);
  }
}
