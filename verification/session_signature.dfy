/** Signatures of discovery sessions: collecting indicators, the canonical text, its hash, and similarity. */
module SessionSignature {
  import opened Wrappers
  import opened RequestShape
  import opened RollingHash
  import Framing

  type Name = seq<Unit>

  datatype Service = Named(name: Name) | Record(service: Option<Name>)

  /** `output.services`: not there, one value, or an array. */
  datatype Services = NoServices | One(one: Service) | Many(many: seq<Service>)

  /** The parts of a tool's output that are looked at; `headers` are the keys, and port 0 stands for no port. */
  datatype Output = Output(
    headers: seq<Name>,
    port: nat,
    openPorts: Option<seq<nat>>,
    endpoints: seq<Name>,
    service: Option<Service>,
    services: Services)

  datatype ToolCall = ToolCall(success: bool, toolName: Name, output: Option<Output>)

  datatype Signature = Signature(hash: string, toolSequence: seq<Name>, indicators: seq<Name>)

  // ----- collecting -----

  /** The concatenation of what `f` gives for each element, in order. */
  function FlatMap<X>(f: X -> seq<Name>, s: seq<X>): seq<Name> {
    if s == [] then [] else FlatMap(f, s[..|s| - 1]) + f(s[|s| - 1])
  }

  /** Lower case of ASCII letters; no other letter has a lower case among the letters of the names compared here. */
  function Lower(name: Name): Name {
    seq(|name|, i requires 0 <= i < |name| => if 0x41 <= name[i] <= 0x5A then (name[i] + 32) as Unit else name[i])
  }

  function HeaderIndicator(header: Name): seq<Name> {
    if Lower(header) in [Ascii("server"), Ascii("x-powered-by"), Ascii("x-application-context")]
    then [Ascii("header:") + Lower(header)]
    else []
  }

  function PortIndicator(port: nat): seq<Name> {
    [Ascii("port:") + Ascii(Framing.Decimal(port))]
  }

  function EndpointIndicator(endpoint: Name): seq<Name> {
    [Ascii("endpoint:") + endpoint]
  }

  function ServiceIndicator(s: Service): seq<Name> {
    var name := if s.Named? then s.name else if s.service.Some? then s.service.value else [];
    if name == [] then [] else [Ascii("service:") + name]
  }

  function Ports(o: Output): seq<nat> {
    if o.openPorts.Some? then o.openPorts.value else if o.port != 0 then [o.port] else []
  }

  predicate Truthy(s: Service) {
    s.Record? || s.name != []
  }

  /** `Array.isArray(services) ? services : [services || service]`, once one of the two is truthy. */
  function ServiceList(o: Output): seq<Service> {
    match o.services
    case Many(many) => many
    case One(one) => if Truthy(one) || o.service.None? then [one] else [o.service.value]
    case NoServices => if o.service.Some? then [o.service.value] else []
  }

  function OutputIndicators(o: Output): seq<Name> {
    FlatMap(HeaderIndicator, o.headers) + FlatMap(PortIndicator, Ports(o)) +
    FlatMap(EndpointIndicator, o.endpoints) + FlatMap(ServiceIndicator, ServiceList(o))
  }

  function CallIndicators(c: ToolCall): seq<Name> {
    if c.success && c.output.Some? then OutputIndicators(c.output.value) else []
  }

  function CallTool(c: ToolCall): seq<Name> {
    if c.success then [c.toolName] else []
  }

  function Tools(calls: seq<ToolCall>): seq<Name> {
    FlatMap(CallTool, calls)
  }

  function Indicators(calls: seq<ToolCall>): seq<Name> {
    FlatMap(CallIndicators, calls)
  }

  lemma {:induction false} FlatMapConcat<X>(f: X -> seq<Name>, s: seq<X>, t: seq<X>)
    ensures FlatMap(f, s + t) == FlatMap(f, s) + FlatMap(f, t)
  {
    if t == [] {
      assert s + t == s;
    } else {
      FlatMapConcat(f, s, t[..|t| - 1]);
      assert (s + t)[..|s + t| - 1] == s + t[..|t| - 1];
    }
  }

  lemma DropAt<X>(s: seq<X>, i: nat)
    requires i < |s|
    ensures multiset(s[..i] + s[i + 1..]) == multiset(s) - multiset{s[i]}
    ensures s == s[..i] + [s[i]] + s[i + 1..]
  {
    assert s == s[..i] + [s[i]] + s[i + 1..];
    assert multiset(s) == multiset(s[..i]) + multiset{s[i]} + multiset(s[i + 1..]);
  }

  lemma FlatMapMoves<X>(f: X -> seq<Name>, s: seq<X>, i: nat)
    requires i < |s|
    ensures multiset(FlatMap(f, s)) == multiset(FlatMap(f, s[..i] + s[i + 1..])) + multiset(f(s[i]))
  {
    DropAt(s, i);
    var before, after := s[..i], s[i + 1..];
    FlatMapConcat(f, before + [s[i]], after);
    FlatMapConcat(f, before, [s[i]]);
    FlatMapConcat(f, before, after);
    assert [s[i]][..0] == [];
    assert FlatMap(f, [s[i]]) == FlatMap(f, [s[i]][..0]) + f(s[i]) == f(s[i]);
  }

  lemma EmptyMultiset<X>(s: seq<X>)
    requires multiset(s) == multiset{}
    ensures s == []
  {
    assert |multiset(s)| == |s|;
  }

  /** Reordering what is collected from only reorders what is collected. */
  lemma {:induction false} FlatMapPermutes<X>(f: X -> seq<Name>, s: seq<X>, t: seq<X>)
    requires multiset(s) == multiset(t)
    ensures multiset(FlatMap(f, s)) == multiset(FlatMap(f, t))
  {
    if s == [] {
      EmptyMultiset(t);
    } else {
      var n := |s| - 1;
      assert s[n] in multiset(t);
      var i :| 0 <= i < |t| && t[i] == s[n];
      DropAt(s, n);
      DropAt(t, i);
      assert s[..n] + s[n + 1..] == s[..n];
      FlatMapPermutes(f, s[..n], t[..i] + t[i + 1..]);
      FlatMapMoves(f, t, i);
    }
  }

  // ----- the default order of `sort`, by code units -----

  predicate AtMost(a: Name, b: Name) {
    a == [] || (b != [] && (a[0] < b[0] || (a[0] == b[0] && AtMost(a[1..], b[1..]))))
  }

  lemma {:induction false} OrderIsTotal(a: Name, b: Name)
    ensures AtMost(a, b) || AtMost(b, a)
  {
    if a != [] && b != [] {
      OrderIsTotal(a[1..], b[1..]);
    }
  }

  lemma {:induction false} OrderIsAntisymmetric(a: Name, b: Name)
    requires AtMost(a, b) && AtMost(b, a)
    ensures a == b
  {
    if a != [] && b != [] {
      OrderIsAntisymmetric(a[1..], b[1..]);
      assert a == [a[0]] + a[1..] && b == [b[0]] + b[1..];
    }
  }

  lemma {:induction false} OrderIsTransitive(a: Name, b: Name, c: Name)
    requires AtMost(a, b) && AtMost(b, c)
    ensures AtMost(a, c)
  {
    if a != [] && a[0] == b[0] == c[0] {
      OrderIsTransitive(a[1..], b[1..], c[1..]);
    }
  }

  predicate IsSorted(s: seq<Name>) {
    s == [] || ((forall x | x in s[1..] :: AtMost(s[0], x)) && IsSorted(s[1..]))
  }

  function Insert(x: Name, s: seq<Name>): seq<Name> {
    if s == [] || AtMost(x, s[0]) then [x] + s else [s[0]] + Insert(x, s[1..])
  }

  lemma {:induction false} InsertAdds(x: Name, s: seq<Name>)
    ensures multiset(Insert(x, s)) == multiset(s) + multiset{x}
  {
    if s != [] {
      assert s == [s[0]] + s[1..];
      if !AtMost(x, s[0]) {
        InsertAdds(x, s[1..]);
      }
    }
  }

  lemma AtMostAll(x: Name, s: seq<Name>)
    requires IsSorted(s) && s != [] && AtMost(x, s[0])
    ensures forall y | y in s :: AtMost(x, y)
  {
    forall y | y in s
      ensures AtMost(x, y)
    {
      if y != s[0] {
        assert y in s[1..];
        OrderIsTransitive(x, s[0], y);
      }
    }
  }

  lemma {:induction false} InsertKeepsSorted(x: Name, s: seq<Name>)
    requires IsSorted(s)
    ensures IsSorted(Insert(x, s))
  {
    if s == [] {
      assert [x][1..] == [];
    } else if AtMost(x, s[0]) {
      AtMostAll(x, s);
      assert ([x] + s)[1..] == s;
    } else {
      var below := Insert(x, s[1..]);
      InsertKeepsSorted(x, s[1..]);
      InsertAdds(x, s[1..]);
      OrderIsTotal(x, s[0]);
      forall y | y in below
        ensures AtMost(s[0], y)
      {
        assert y in multiset(below);
        assert y == x || y in multiset(s[1..]);
      }
      assert ([s[0]] + below)[1..] == below;
    }
  }

  function Sorted(s: seq<Name>): (r: seq<Name>)
    ensures IsSorted(r) && multiset(r) == multiset(s)
  {
    if s == [] then []
    else
      InsertKeepsSorted(s[0], Sorted(s[1..]));
      InsertAdds(s[0], Sorted(s[1..]));
      assert s == [s[0]] + s[1..];
      Insert(s[0], Sorted(s[1..]))
  }

  lemma FirstIsLeast(s: seq<Name>, x: Name)
    requires IsSorted(s) && x in multiset(s)
    ensures AtMost(s[0], x)
  {
    if x == s[0] {
      OrderIsTotal(x, x);
    } else {
      assert x in s[1..];
    }
  }

  lemma SameFirst(s: seq<Name>, t: seq<Name>)
    requires IsSorted(s) && IsSorted(t) && multiset(s) == multiset(t) && s != [] && t != []
    ensures s[0] == t[0]
  {
    assert s[0] in multiset(t) && t[0] in multiset(s);
    FirstIsLeast(s, t[0]);
    FirstIsLeast(t, s[0]);
    OrderIsAntisymmetric(s[0], t[0]);
  }

  lemma TailMultiset<X>(s: seq<X>)
    requires s != []
    ensures multiset(s[1..]) == multiset(s) - multiset{s[0]}
  {
    assert s == [s[0]] + s[1..];
  }

  /** A multiset has one sorted sequence. */
  lemma {:induction false} SortedIsUnique(s: seq<Name>, t: seq<Name>)
    requires IsSorted(s) && IsSorted(t) && multiset(s) == multiset(t)
    ensures s == t
  {
    if s == [] {
      EmptyMultiset(t);
    } else if t == [] {
      EmptyMultiset(s);
    } else {
      SameFirst(s, t);
      TailMultiset(s);
      TailMultiset(t);
      SortedIsUnique(s[1..], t[1..]);
      assert s == [s[0]] + s[1..] && t == [t[0]] + t[1..];
    }
  }

  // ----- the text that is hashed -----

  /** One code unit of a quoted text, outside a surrogate pair. */
  function QuotedUnit(u: Unit): seq<Unit> {
    if u == 0x22 then [0x5C, 0x22]
    else if u == 0x5C then [0x5C, 0x5C]
    else if u == 0x08 then [0x5C, 0x62]
    else if u == 0x09 then [0x5C, 0x74]
    else if u == 0x0A then [0x5C, 0x6E]
    else if u == 0x0C then [0x5C, 0x66]
    else if u == 0x0D then [0x5C, 0x72]
    else if u < 0x20 || IsHigh(u) || IsLow(u) then Escape(u)
    else [u]
  }

  function QuotedUnits(units: Name): seq<Unit> {
    if units == [] then []
    else if StartsPair(units) then [units[0], units[1]] + QuotedUnits(units[2..])
    else QuotedUnit(units[0]) + QuotedUnits(units[1..])
  }

  function Quoted(name: Name): seq<Unit> {
    [0x22] + (QuotedUnits(name) + [0x22])
  }

  function QuotedList(names: seq<Name>): seq<Unit> {
    if names == [] then []
    else if |names| == 1 then Quoted(names[0])
    else Quoted(names[0]) + ([0x2C] + QuotedList(names[1..]))
  }

  /** `JSON.stringify({ tools, indicators })`. */
  function SignatureText(tools: seq<Name>, indicators: seq<Name>): seq<Unit> {
    Ascii("{\"tools\":[") +
    (QuotedList(tools) + ([0x5D] + (Ascii(",\"indicators\":[") + (QuotedList(indicators) + [0x5D, 0x7D]))))
  }

  lemma HexIsInjective(d: int, e: int)
    requires 0 <= d < 16 && 0 <= e < 16 && Hex(d) == Hex(e)
    ensures d == e
  {
  }

  lemma DigitsDetermine(u: Unit, v: Unit)
    requires u / 0x1000 == v / 0x1000 && u / 0x100 % 16 == v / 0x100 % 16
    requires u / 16 % 16 == v / 16 % 16 && u % 16 == v % 16
    ensures u == v
  {
    DigitSteps(u);
    DigitSteps(v);
  }

  lemma DigitSteps(u: Unit)
    ensures u / 0x100 == 16 * (u / 0x1000) + u / 0x100 % 16
    ensures u / 16 == 16 * (u / 0x100) + u / 16 % 16
  {
  }

  lemma CutEqualLengths(a: seq<Unit>, x: seq<Unit>, b: seq<Unit>, y: seq<Unit>)
    requires a + x == b + y && |a| == |b|
    ensures a == b && x == y
  {
    assert a == (a + x)[..|a|] && b == (b + y)[..|b|];
    assert x == (a + x)[|a|..] && y == (b + y)[|b|..];
  }

  lemma EscapeIsPrefixFree(u: Unit, x: seq<Unit>, v: Unit, y: seq<Unit>)
    requires Escape(u) + x == Escape(v) + y
    ensures u == v && x == y
  {
    var s, t := Escape(u), Escape(v);
    CutEqualLengths(s, x, t, y);
    assert s[2] == t[2] && s[3] == t[3] && s[4] == t[4] && s[5] == t[5];
    HexIsInjective(u / 0x1000, v / 0x1000);
    HexIsInjective(u / 0x100 % 16, v / 0x100 % 16);
    HexIsInjective(u / 16 % 16, v / 16 % 16);
    HexIsInjective(u % 16, v % 16);
    DigitsDetermine(u, v);
  }

  lemma UnitIsPrefixFree(u: Unit, x: seq<Unit>, v: Unit, y: seq<Unit>)
    requires QuotedUnit(u) + x == QuotedUnit(v) + y
    ensures u == v && x == y
  {
    var s, t := QuotedUnit(u) + x, QuotedUnit(v) + y;
    assert s[0] == QuotedUnit(u)[0] && t[0] == QuotedUnit(v)[0];
    if QuotedUnit(u) == Escape(u) && QuotedUnit(v) == Escape(v) {
      EscapeIsPrefixFree(u, x, v, y);
    } else {
      if |QuotedUnit(u)| > 1 { assert s[1] == QuotedUnit(u)[1]; }
      if |QuotedUnit(v)| > 1 { assert t[1] == QuotedUnit(v)[1]; }
      assert u == v;
      assert x == s[|QuotedUnit(u)|..] && y == t[|QuotedUnit(v)|..];
    }
  }

  /** The start of a quoted text decides whether it is over, starts with a pair, or with a single unit. */
  lemma QuotedStart(a: Name, x: seq<Unit>)
    ensures var s := QuotedUnits(a) + ([0x22] + x);
            (a == [] <==> s[0] == 0x22) && (StartsPair(a) <==> IsHigh(s[0]))
  {
    var s := QuotedUnits(a) + ([0x22] + x);
    if a != [] {
      assert s[0] == QuotedUnits(a)[0];
    }
  }

  lemma QuotedSplits(a: Name, x: seq<Unit>)
    ensures var s := QuotedUnits(a) + ([0x22] + x);
            if a == [] then s == [0x22] + x
            else if StartsPair(a) then s == [a[0], a[1]] + (QuotedUnits(a[2..]) + ([0x22] + x))
            else s == QuotedUnit(a[0]) + (QuotedUnits(a[1..]) + ([0x22] + x))
  {
    if a == [] {
      assert QuotedUnits(a) + ([0x22] + x) == [0x22] + x;
    } else if StartsPair(a) {
      Associate([a[0], a[1]], QuotedUnits(a[2..]), [0x22] + x);
    } else {
      Associate(QuotedUnit(a[0]), QuotedUnits(a[1..]), [0x22] + x);
    }
  }

  lemma Associate(a: seq<Unit>, b: seq<Unit>, c: seq<Unit>)
    ensures (a + b) + c == a + (b + c)
  {
  }

  lemma {:induction false} QuotedIsPrefixFree(a: Name, x: seq<Unit>, b: Name, y: seq<Unit>)
    requires QuotedUnits(a) + ([0x22] + x) == QuotedUnits(b) + ([0x22] + y)
    ensures a == b && x == y
  {
    QuotedStart(a, x);
    QuotedStart(b, y);
    QuotedSplits(a, x);
    QuotedSplits(b, y);
    if a == [] {
      CutEqualLengths([0x22], x, [0x22], y);
    } else if StartsPair(a) {
      CutEqualLengths([a[0], a[1]], QuotedUnits(a[2..]) + ([0x22] + x), [b[0], b[1]],
                      QuotedUnits(b[2..]) + ([0x22] + y));
      QuotedIsPrefixFree(a[2..], x, b[2..], y);
      assert a == [a[0], a[1]] + a[2..] && b == [b[0], b[1]] + b[2..];
    } else {
      UnitIsPrefixFree(a[0], QuotedUnits(a[1..]) + ([0x22] + x), b[0], QuotedUnits(b[1..]) + ([0x22] + y));
      QuotedIsPrefixFree(a[1..], x, b[1..], y);
      assert a == [a[0]] + a[1..] && b == [b[0]] + b[1..];
    }
  }

  /** What follows the opening quote of the first name of a list. */
  function AfterFirst(names: seq<Name>, x: seq<Unit>): seq<Unit>
    requires names != []
  {
    if |names| == 1 then [0x5D] + x else [0x2C] + (QuotedList(names[1..]) + ([0x5D] + x))
  }

  lemma ListStart(names: seq<Name>, x: seq<Unit>)
    ensures var s := QuotedList(names) + ([0x5D] + x);
            if names == [] then s == [0x5D] + x
            else s == [0x22] + (QuotedUnits(names[0]) + ([0x22] + AfterFirst(names, x)))
  {
    if |names| == 1 {
      var q, e := QuotedUnits(names[0]), [0x5D] + x;
      Associate([0x22], q + [0x22], e);
      Associate(q, [0x22], e);
    } else if |names| > 1 {
      var q, rest, e := QuotedUnits(names[0]), QuotedList(names[1..]), [0x5D] + x;
      var d := [0x2C] + rest;
      Associate(Quoted(names[0]), d, e);
      Associate([0x2C], rest, e);
      Associate([0x22], q + [0x22], d + e);
      Associate(q, [0x22], d + e);
    } else {
      assert QuotedList(names) + ([0x5D] + x) == [0x5D] + x;
    }
  }

  lemma FirstIsPrefixFree(a: seq<Name>, x: seq<Unit>, b: seq<Name>, y: seq<Unit>)
    requires a != [] && b != [] && QuotedList(a) + ([0x5D] + x) == QuotedList(b) + ([0x5D] + y)
    ensures a[0] == b[0] && AfterFirst(a, x) == AfterFirst(b, y)
  {
    ListStart(a, x);
    ListStart(b, y);
    var u, v := AfterFirst(a, x), AfterFirst(b, y);
    CutEqualLengths([0x22], QuotedUnits(a[0]) + ([0x22] + u), [0x22], QuotedUnits(b[0]) + ([0x22] + v));
    QuotedIsPrefixFree(a[0], u, b[0], v);
  }

  lemma ListEnds(a: seq<Name>, x: seq<Unit>)
    ensures (QuotedList(a) + ([0x5D] + x))[0] == 0x5D <==> a == []
    ensures a != [] ==> (AfterFirst(a, x)[0] == 0x5D <==> |a| == 1)
  {
    ListStart(a, x);
  }

  lemma {:induction false} ListIsPrefixFree(a: seq<Name>, x: seq<Unit>, b: seq<Name>, y: seq<Unit>)
    requires QuotedList(a) + ([0x5D] + x) == QuotedList(b) + ([0x5D] + y)
    ensures a == b && x == y
  {
    ListEnds(a, x);
    ListEnds(b, y);
    if a == [] {
      ListStart(a, x);
      ListStart(b, y);
      CutEqualLengths([0x5D], x, [0x5D], y);
    } else {
      FirstIsPrefixFree(a, x, b, y);
      if |a| == 1 {
        CutEqualLengths([0x5D], x, [0x5D], y);
        assert a == [a[0]] && b == [b[0]];
      } else {
        CutEqualLengths([0x2C], QuotedList(a[1..]) + ([0x5D] + x), [0x2C], QuotedList(b[1..]) + ([0x5D] + y));
        ListIsPrefixFree(a[1..], x, b[1..], y);
        assert a == [a[0]] + a[1..] && b == [b[0]] + b[1..];
      }
    }
  }

  lemma CutPrefix(p: seq<Unit>, x: seq<Unit>, y: seq<Unit>)
    requires p + x == p + y
    ensures x == y
  {
    assert x == (p + x)[|p|..] && y == (p + y)[|p|..];
  }

  /** The hashed text is canonical: it fixes the tool sequence and the multiset of indicators, and nothing else. */
  lemma SignatureTextIff(tools: seq<Name>, indicators: seq<Name>, tools': seq<Name>, indicators': seq<Name>)
    ensures SignatureText(tools, Sorted(indicators)) == SignatureText(tools', Sorted(indicators')) <==>
            tools == tools' && multiset(indicators) == multiset(indicators')
  {
    var s, t := Sorted(indicators), Sorted(indicators');
    if SignatureText(tools, s) == SignatureText(tools', t) {
      var x := Ascii(",\"indicators\":[") + (QuotedList(s) + [0x5D, 0x7D]);
      var y := Ascii(",\"indicators\":[") + (QuotedList(t) + [0x5D, 0x7D]);
      CutPrefix(Ascii("{\"tools\":["), QuotedList(tools) + ([0x5D] + x), QuotedList(tools') + ([0x5D] + y));
      ListIsPrefixFree(tools, x, tools', y);
      CutPrefix(Ascii(",\"indicators\":["), QuotedList(s) + [0x5D, 0x7D], QuotedList(t) + [0x5D, 0x7D]);
      assert [0x5D, 0x7D] == [0x5D] + [0x7D];
      ListIsPrefixFree(s, [0x7D], t, [0x7D]);
    } else if tools == tools' && multiset(indicators) == multiset(indicators') {
      SortedIsUnique(s, t);
    }
  }

  // ----- the signature -----

  function Form(tools: seq<Name>, sorted: seq<Name>): Signature {
    Signature(HashText(SignatureText(tools, sorted)), tools, sorted)
  }

  function SignatureOf(calls: seq<ToolCall>): Signature {
    Form(Tools(calls), Sorted(Indicators(calls)))
  }

  method CollectOutput(o: Output) returns (found: seq<Name>)
    ensures found == OutputIndicators(o)
  {
    found := CollectHeaders(o.headers);
    if o.port != 0 || o.openPorts.Some? {
      found := CollectPorts(if o.openPorts.Some? then o.openPorts.value else [o.port], found);
    }
    ghost var before := found;
    for i := 0 to |o.endpoints|
      invariant found == before + FlatMap(EndpointIndicator, o.endpoints[..i])
    {
      assert o.endpoints[..i + 1][..i] == o.endpoints[..i];
      found := found + [Ascii("endpoint:") + o.endpoints[i]];
    }
    assert o.endpoints[..|o.endpoints|] == o.endpoints;
    found := CollectServices(o, found);
  }

  method CollectHeaders(headers: seq<Name>) returns (found: seq<Name>)
    ensures found == FlatMap(HeaderIndicator, headers)
  {
    found := [];
    for i := 0 to |headers|
      invariant found == FlatMap(HeaderIndicator, headers[..i])
    {
      assert headers[..i + 1][..i] == headers[..i];
      var header := Lower(headers[i]);
      if header in [Ascii("server"), Ascii("x-powered-by"), Ascii("x-application-context")] {
        found := found + [Ascii("header:") + header];
      }
    }
    assert headers[..|headers|] == headers;
  }

  method CollectPorts(ports: seq<nat>, before: seq<Name>) returns (found: seq<Name>)
    ensures found == before + FlatMap(PortIndicator, ports)
  {
    found := before;
    for i := 0 to |ports|
      invariant found == before + FlatMap(PortIndicator, ports[..i])
    {
      assert ports[..i + 1][..i] == ports[..i];
      found := found + [Ascii("port:") + Ascii(Framing.Decimal(ports[i]))];
    }
    assert ports[..|ports|] == ports;
  }

  method CollectServices(o: Output, before: seq<Name>) returns (found: seq<Name>)
    ensures found == before + FlatMap(ServiceIndicator, ServiceList(o))
  {
    found := before;
    var services := ServiceList(o);
    for i := 0 to |services|
      invariant found == before + FlatMap(ServiceIndicator, services[..i])
    {
      assert services[..i + 1][..i] == services[..i];
      var svc := services[i];
      var name := if svc.Named? then svc.name else if svc.service.Some? then svc.service.value else [];
      if name != [] {
        found := found + [Ascii("service:") + name];
      }
    }
    assert services[..|services|] == services;
  }

  /** `generateSignature`. */
  method GenerateSignature(calls: seq<ToolCall>) returns (signature: Signature)
    ensures signature == SignatureOf(calls)
  {
    var tools: seq<Name> := [];
    var indicators: seq<Name> := [];
    for i := 0 to |calls|
      invariant tools == Tools(calls[..i]) && indicators == Indicators(calls[..i])
    {
      assert calls[..i + 1][..i] == calls[..i];
      if calls[i].success {
        tools := tools + [calls[i].toolName];
        if calls[i].output.Some? {
          var found := CollectOutput(calls[i].output.value);
          indicators := indicators + found;
        }
      }
    }
    assert calls[..|calls|] == calls;
    indicators := Sorted(indicators);
    var hash := HashString(SignatureText(tools, indicators));
    signature := Signature(hash, tools, indicators);
  }

  /**
   Sessions have the same tools, indicators and hash exactly when their tool sequences and indicator multisets agree.
   */
  lemma SignatureIsCanonical(calls: seq<ToolCall>, others: seq<ToolCall>)
    ensures SignatureOf(calls) == SignatureOf(others) <==>
            Tools(calls) == Tools(others) && multiset(Indicators(calls)) == multiset(Indicators(others))
  {
    if Tools(calls) == Tools(others) && multiset(Indicators(calls)) == multiset(Indicators(others)) {
      SignatureTextIff(Tools(calls), Indicators(calls), Tools(others), Indicators(others));
      SortedIsUnique(Sorted(Indicators(calls)), Sorted(Indicators(others)));
    }
  }

  /** Two outputs that list the same things in another order. */
  predicate SameListings(o: Output, p: Output) {
    && multiset(o.headers) == multiset(p.headers)
    && multiset(Ports(o)) == multiset(Ports(p))
    && multiset(o.endpoints) == multiset(p.endpoints)
    && multiset(ServiceList(o)) == multiset(ServiceList(p))
  }

  predicate SameCall(c: ToolCall, d: ToolCall) {
    && c.success == d.success && c.toolName == d.toolName
    && c.output.Some? == d.output.Some?
    && (c.output.Some? ==> SameListings(c.output.value, d.output.value))
  }

  lemma SameCallCollectsSame(c: ToolCall, d: ToolCall)
    requires SameCall(c, d)
    ensures multiset(CallIndicators(c)) == multiset(CallIndicators(d)) && CallTool(c) == CallTool(d)
  {
    if c.success && c.output.Some? {
      var o, p := c.output.value, d.output.value;
      FlatMapPermutes(HeaderIndicator, o.headers, p.headers);
      FlatMapPermutes(PortIndicator, Ports(o), Ports(p));
      FlatMapPermutes(EndpointIndicator, o.endpoints, p.endpoints);
      FlatMapPermutes(ServiceIndicator, ServiceList(o), ServiceList(p));
    }
  }

  /** The order in which tools list headers, ports, endpoints and services does not reach the signature. */
  lemma {:induction false} ListingOrderIsIrrelevant(calls: seq<ToolCall>, others: seq<ToolCall>)
    requires |calls| == |others| && forall i | 0 <= i < |calls| :: SameCall(calls[i], others[i])
    ensures Tools(calls) == Tools(others) && multiset(Indicators(calls)) == multiset(Indicators(others))
    ensures SignatureOf(calls) == SignatureOf(others)
  {
    if calls != [] {
      var n := |calls| - 1;
      ListingOrderIsIrrelevant(calls[..n], others[..n]);
      SameCallCollectsSame(calls[n], others[n]);
    }
    SignatureIsCanonical(calls, others);
  }

  /** The order of the calls reaches it only through the sequence of successful tools. */
  lemma CallOrderIsIrrelevant(calls: seq<ToolCall>, others: seq<ToolCall>)
    requires multiset(calls) == multiset(others) && Tools(calls) == Tools(others)
    ensures SignatureOf(calls) == SignatureOf(others)
  {
    FlatMapPermutes(CallIndicators, calls, others);
    SignatureIsCanonical(calls, others);
  }
}
