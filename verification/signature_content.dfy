/** What a session signature is made of, said over the tool calls, and the text that is hashed as a JSON text. */
module SignatureContent {
  import opened Wrappers
  import opened Sequences
  import opened RequestShape
  import opened SessionSignature
  import Framing

  function Count(names: seq<Name>, name: Name): nat {
    multiset(names)[name]
  }

  // ----- what each call lists -----

  /** How often the output of a successful call lists port `p`: the open ports, or else the one port. */
  function ListsPort(c: ToolCall, p: nat): nat {
    if !c.success || c.output.None? then 0
    else if c.output.value.openPorts.Some? then multiset(c.output.value.openPorts.value)[p]
    else if c.output.value.port == p && p != 0 then 1
    else 0
  }

  function ListsEndpoint(c: ToolCall, e: Name): nat {
    if c.success && c.output.Some? then multiset(c.output.value.endpoints)[e] else 0
  }

  /** The name of a service given as a text, or in a record; a missing name is empty. */
  predicate IsCalled(s: Service, name: Name) {
    match s
    case Named(n) => n == name
    case Record(service) => if service.Some? then service.value == name else name == []
  }

  function Calls(name: Name): Service -> nat {
    s => if IsCalled(s, name) then 1 else 0
  }

  /**
   How often the output of a successful call names a service: in its list, or else in its one value, or else apart.
   */
  function ListsService(c: ToolCall, name: Name): nat {
    if !c.success || c.output.None? then 0
    else
      var o := c.output.value;
      if o.services.Many? then Sum(Calls(name), o.services.many)
      else if o.services.One? && (o.services.one.Record? || o.services.one.name != []) then Calls(name)(o.services.one)
      else if o.service.Some? then Calls(name)(o.service.value)
      else 0
  }

  function Spells(name: Name): Name -> nat {
    header => if IsInCapitals(header, name) then 1 else 0
  }

  /** How often the output of a successful call has a header of that name, in any case. */
  function ListsHeader(c: ToolCall, name: Name): nat {
    if c.success && c.output.Some? then Sum(Spells(name), c.output.value.headers) else 0
  }

  function PortTerm(p: nat): ToolCall -> nat { c => ListsPort(c, p) }

  function EndpointTerm(e: Name): ToolCall -> nat { c => ListsEndpoint(c, e) }

  function ServiceTerm(name: Name): ToolCall -> nat { c => ListsService(c, name) }

  function HeaderTerm(name: Name): ToolCall -> nat { c => ListsHeader(c, name) }

  // ----- counting what is collected -----

  function CountIn<X>(f: X -> seq<Name>, name: Name): X -> nat {
    x => Count(f(x), name)
  }

  lemma {:induction false} FlatMapCounts<X>(f: X -> seq<Name>, s: seq<X>, name: Name)
    ensures Count(FlatMap(f, s), name) == Sum(CountIn(f, name), s)
  {
    if s != [] {
      FlatMapCounts(f, s[..|s| - 1], name);
    }
  }

  lemma {:induction false} SumsEqual<X>(f: X -> nat, g: X -> nat, s: seq<X>)
    requires forall x | x in s :: f(x) == g(x)
    ensures Sum(f, s) == Sum(g, s)
  {
    if s != [] {
      assert forall x | x in s[..|s| - 1] :: x in s;
      SumsEqual(f, g, s[..|s| - 1]);
    }
  }

  lemma {:induction false} SumOfZeros<X>(f: X -> nat, s: seq<X>)
    requires forall x | x in s :: f(x) == 0
    ensures Sum(f, s) == 0
  {
    if s != [] {
      assert forall x | x in s[..|s| - 1] :: x in s;
      SumOfZeros(f, s[..|s| - 1]);
    }
  }

  /** A count of one value is a sum over all. */
  lemma {:induction false} SumOfOne<X(!new)>(f: X -> nat, s: seq<X>, x: X)
    requires forall y :: f(y) == if y == x then 1 else 0
    ensures Sum(f, s) == multiset(s)[x]
  {
    if s != [] {
      SumOfOne(f, s[..|s| - 1], x);
      assert s == s[..|s| - 1] + [s[|s| - 1]];
    }
  }

  /** The four kinds of indicator begin with different letters. */
  lemma FirstLetters(name: Name)
    ensures (Ascii("header:") + name)[0] == 0x68 && (Ascii("port:") + name)[0] == 0x70
    ensures (Ascii("endpoint:") + name)[0] == 0x65 && (Ascii("service:") + name)[0] == 0x73
  {
  }

  lemma {:induction false} FlatMapOrigin<X>(f: X -> seq<Name>, s: seq<X>, x: Name) returns (y: X)
    requires x in FlatMap(f, s)
    ensures y in s && x in f(y)
  {
    var n := |s| - 1;
    if x in f(s[n]) {
      y := s[n];
    } else {
      y := FlatMapOrigin(f, s[..n], x);
    }
  }

  lemma FlatMapLacks<X>(f: X -> seq<Name>, s: seq<X>, x: Name)
    requires forall y | y in s :: x !in f(y)
    ensures Count(FlatMap(f, s), x) == 0
  {
    if x in FlatMap(f, s) {
      var y := FlatMapOrigin(f, s, x);
    } else {
      assert x !in multiset(FlatMap(f, s));
    }
  }

  lemma HeaderLetter(header: Name, x: Name)
    requires x in HeaderIndicator(header)
    ensures x != [] && x[0] == 0x68
  {
    FirstLetters(Lower(header));
  }

  lemma PortLetter(port: nat, x: Name)
    requires x in PortIndicator(port)
    ensures x != [] && x[0] == 0x70
  {
    FirstLetters(Ascii(Framing.Decimal(port)));
  }

  lemma EndpointLetter(endpoint: Name, x: Name)
    requires x in EndpointIndicator(endpoint)
    ensures x != [] && x[0] == 0x65
  {
    FirstLetters(endpoint);
  }

  lemma ServiceLetter(s: Service, x: Name)
    requires x in ServiceIndicator(s)
    ensures x != [] && x[0] == 0x73
  {
    FirstLetters(if s.Named? then s.name else s.service.value);
  }

  lemma NoHeaders(headers: seq<Name>, x: Name)
    requires x != [] && x[0] != 0x68
    ensures Count(FlatMap(HeaderIndicator, headers), x) == 0
  {
    forall h | h in headers ensures x !in HeaderIndicator(h) {
      if x in HeaderIndicator(h) { HeaderLetter(h, x); }
    }
    FlatMapLacks(HeaderIndicator, headers, x);
  }

  lemma NoPorts(ports: seq<nat>, x: Name)
    requires x != [] && x[0] != 0x70
    ensures Count(FlatMap(PortIndicator, ports), x) == 0
  {
    forall p | p in ports ensures x !in PortIndicator(p) {
      if x in PortIndicator(p) { PortLetter(p, x); }
    }
    FlatMapLacks(PortIndicator, ports, x);
  }

  lemma NoEndpoints(endpoints: seq<Name>, x: Name)
    requires x != [] && x[0] != 0x65
    ensures Count(FlatMap(EndpointIndicator, endpoints), x) == 0
  {
    forall e | e in endpoints ensures x !in EndpointIndicator(e) {
      if x in EndpointIndicator(e) { EndpointLetter(e, x); }
    }
    FlatMapLacks(EndpointIndicator, endpoints, x);
  }

  lemma NoServices(services: seq<Service>, x: Name)
    requires x != [] && x[0] != 0x73
    ensures Count(FlatMap(ServiceIndicator, services), x) == 0
  {
    forall s | s in services ensures x !in ServiceIndicator(s) {
      if x in ServiceIndicator(s) { ServiceLetter(s, x); }
    }
    FlatMapLacks(ServiceIndicator, services, x);
  }

  /** The first letter of a name says which part of an output it can come from. */
  lemma LetterDecides(o: Output, x: Name)
    requires x != []
    ensures x[0] == 0x68 ==> Count(OutputIndicators(o), x) == Count(FlatMap(HeaderIndicator, o.headers), x)
    ensures x[0] == 0x70 ==> Count(OutputIndicators(o), x) == Count(FlatMap(PortIndicator, Ports(o)), x)
    ensures x[0] == 0x65 ==> Count(OutputIndicators(o), x) == Count(FlatMap(EndpointIndicator, o.endpoints), x)
    ensures x[0] == 0x73 ==> Count(OutputIndicators(o), x) == Count(FlatMap(ServiceIndicator, ServiceList(o)), x)
  {
    if x[0] != 0x68 { NoHeaders(o.headers, x); }
    if x[0] != 0x70 { NoPorts(Ports(o), x); }
    if x[0] != 0x65 { NoEndpoints(o.endpoints, x); }
    if x[0] != 0x73 { NoServices(ServiceList(o), x); }
    CountsAdd(FlatMap(HeaderIndicator, o.headers), FlatMap(PortIndicator, Ports(o)),
              FlatMap(EndpointIndicator, o.endpoints),
              FlatMap(ServiceIndicator, ServiceList(o)), x);
  }

  lemma CountsAdd(a: seq<Name>, b: seq<Name>, c: seq<Name>, d: seq<Name>, x: Name)
    ensures Count(a + b + c + d, x) == Count(a, x) + Count(b, x) + Count(c, x) + Count(d, x)
  {
  }

  // ----- ports -----

  lemma {:induction false} AsciiIsInjective(a: string, b: string)
    requires (forall c | c in a :: c < '\U{80}') && (forall c | c in b :: c < '\U{80}') && Ascii(a) == Ascii(b)
    ensures a == b
  {
    assert |a| == |Ascii(a)| == |Ascii(b)| == |b|;
    forall i | 0 <= i < |a| ensures a[i] == b[i] {
      assert a[i] in a && b[i] in b && Ascii(a)[i] == Ascii(b)[i];
    }
  }

  lemma {:induction false} DecimalIsAscii(n: nat)
    ensures forall c | c in Framing.Decimal(n) :: c < '\U{80}'
  {
    if n >= 10 {
      DecimalIsAscii(n / 10);
    }
  }

  lemma PortIndicatorCounts(p: nat, q: nat)
    ensures Count(PortIndicator(q), Ascii("port:") + Ascii(Framing.Decimal(p))) == if q == p then 1 else 0
  {
    var x, y := Ascii("port:") + Ascii(Framing.Decimal(p)), Ascii("port:") + Ascii(Framing.Decimal(q));
    if x == y {
      CutPrefix(Ascii("port:"), Ascii(Framing.Decimal(p)), Ascii(Framing.Decimal(q)));
      DecimalIsAscii(p);
      DecimalIsAscii(q);
      AsciiIsInjective(Framing.Decimal(p), Framing.Decimal(q));
      Framing.DecimalIsInjective(p, q);
    }
  }

  lemma PortListCounts(ports: seq<nat>, p: nat)
    ensures Count(FlatMap(PortIndicator, ports), Ascii("port:") + Ascii(Framing.Decimal(p))) == multiset(ports)[p]
  {
    var x := Ascii("port:") + Ascii(Framing.Decimal(p));
    FlatMapCounts(PortIndicator, ports, x);
    forall q: nat ensures CountIn(PortIndicator, x)(q) == if q == p then 1 else 0 {
      PortIndicatorCounts(p, q);
    }
    SumOfOne(CountIn(PortIndicator, x), ports, p);
  }

  lemma OnePortCall(c: ToolCall, p: nat)
    ensures Count(CallIndicators(c), Ascii("port:") + Ascii(Framing.Decimal(p))) == ListsPort(c, p)
  {
    if c.success && c.output.Some? {
      FirstLetters(Ascii(Framing.Decimal(p)));
      LetterDecides(c.output.value, Ascii("port:") + Ascii(Framing.Decimal(p)));
      PortListCounts(Ports(c.output.value), p);
    }
  }

  /** Port `p` is among the indicators exactly as often as outputs of successful calls list it. */
  lemma PortsAreCounted(calls: seq<ToolCall>, p: nat)
    ensures Count(Indicators(calls), Ascii("port:") + Ascii(Framing.Decimal(p))) == Sum(PortTerm(p), calls)
  {
    var x := Ascii("port:") + Ascii(Framing.Decimal(p));
    FlatMapCounts(CallIndicators, calls, x);
    forall c | c in calls ensures CountIn(CallIndicators, x)(c) == PortTerm(p)(c) {
      OnePortCall(c, p);
    }
    SumsEqual(CountIn(CallIndicators, x), PortTerm(p), calls);
  }

  // ----- endpoints -----

  lemma EndpointIndicatorCounts(e: Name, d: Name)
    ensures Count(EndpointIndicator(d), Ascii("endpoint:") + e) == if d == e then 1 else 0
  {
    if Ascii("endpoint:") + d == Ascii("endpoint:") + e {
      CutPrefix(Ascii("endpoint:"), d, e);
    }
  }

  lemma EndpointListCounts(endpoints: seq<Name>, e: Name)
    ensures Count(FlatMap(EndpointIndicator, endpoints), Ascii("endpoint:") + e) == multiset(endpoints)[e]
  {
    var x := Ascii("endpoint:") + e;
    FlatMapCounts(EndpointIndicator, endpoints, x);
    forall d: Name ensures CountIn(EndpointIndicator, x)(d) == if d == e then 1 else 0 {
      EndpointIndicatorCounts(e, d);
    }
    SumOfOne(CountIn(EndpointIndicator, x), endpoints, e);
  }

  lemma OneEndpointCall(c: ToolCall, e: Name)
    ensures Count(CallIndicators(c), Ascii("endpoint:") + e) == ListsEndpoint(c, e)
  {
    if c.success && c.output.Some? {
      FirstLetters(e);
      LetterDecides(c.output.value, Ascii("endpoint:") + e);
      EndpointListCounts(c.output.value.endpoints, e);
    }
  }

  /** So is each endpoint. */
  lemma EndpointsAreCounted(calls: seq<ToolCall>, e: Name)
    ensures Count(Indicators(calls), Ascii("endpoint:") + e) == Sum(EndpointTerm(e), calls)
  {
    var x := Ascii("endpoint:") + e;
    FlatMapCounts(CallIndicators, calls, x);
    forall c | c in calls ensures CountIn(CallIndicators, x)(c) == EndpointTerm(e)(c) {
      OneEndpointCall(c, e);
    }
    SumsEqual(CountIn(CallIndicators, x), EndpointTerm(e), calls);
  }

  // ----- services -----

  lemma ServiceIndicatorCounts(s: Service, name: Name)
    requires name != []
    ensures Count(ServiceIndicator(s), Ascii("service:") + name) == Calls(name)(s)
  {
    var own := if s.Named? then s.name else if s.service.Some? then s.service.value else [];
    if own != [] && Ascii("service:") + own == Ascii("service:") + name {
      CutPrefix(Ascii("service:"), own, name);
    }
  }

  lemma ServiceListCounts(o: Output, name: Name)
    requires name != []
    ensures Sum(Calls(name), ServiceList(o)) == ListsService(ToolCall(true, [], Some(o)), name)
  {
    if !o.services.Many? && ServiceList(o) != [] {
      var only := ServiceList(o)[0];
      assert ServiceList(o) == [only] && [only][..0] == [];
      assert Sum(Calls(name), [only]) == Sum(Calls(name), [only][..0]) + Calls(name)(only);
    }
  }

  lemma ServicesCount(services: seq<Service>, name: Name)
    requires name != []
    ensures Count(FlatMap(ServiceIndicator, services), Ascii("service:") + name) == Sum(Calls(name), services)
  {
    var x := Ascii("service:") + name;
    FlatMapCounts(ServiceIndicator, services, x);
    forall s | s in services ensures CountIn(ServiceIndicator, x)(s) == Calls(name)(s) {
      ServiceIndicatorCounts(s, name);
    }
    SumsEqual(CountIn(ServiceIndicator, x), Calls(name), services);
  }

  lemma OneServiceCall(c: ToolCall, name: Name)
    requires name != []
    ensures Count(CallIndicators(c), Ascii("service:") + name) == ListsService(c, name)
  {
    if c.success && c.output.Some? {
      FirstLetters(name);
      LetterDecides(c.output.value, Ascii("service:") + name);
      ServicesCount(ServiceList(c.output.value), name);
      ServiceListCounts(c.output.value, name);
    }
  }

  /** So is each service name that is not empty. */
  lemma ServicesAreCounted(calls: seq<ToolCall>, name: Name)
    requires name != []
    ensures Count(Indicators(calls), Ascii("service:") + name) == Sum(ServiceTerm(name), calls)
  {
    var x := Ascii("service:") + name;
    FlatMapCounts(CallIndicators, calls, x);
    forall c | c in calls ensures CountIn(CallIndicators, x)(c) == ServiceTerm(name)(c) {
      OneServiceCall(c, name);
    }
    SumsEqual(CountIn(CallIndicators, x), ServiceTerm(name), calls);
  }

  // ----- headers -----

  predicate Tracked(name: Name) {
    name == Ascii("server") || name == Ascii("x-powered-by") || name == Ascii("x-application-context")
  }

  lemma LowerIsInCapitals(header: Name, name: Name)
    ensures Lower(header) == name <==> IsInCapitals(header, name)
  {
  }

  lemma HeaderIndicatorCounts(header: Name, name: Name)
    requires Tracked(name)
    ensures Count(HeaderIndicator(header), Ascii("header:") + name) == Spells(name)(header)
  {
    LowerIsInCapitals(header, name);
    if Ascii("header:") + Lower(header) == Ascii("header:") + name {
      CutPrefix(Ascii("header:"), Lower(header), name);
    }
  }

  lemma HeadersCount(headers: seq<Name>, name: Name)
    requires Tracked(name)
    ensures Count(FlatMap(HeaderIndicator, headers), Ascii("header:") + name) == Sum(Spells(name), headers)
  {
    var x := Ascii("header:") + name;
    FlatMapCounts(HeaderIndicator, headers, x);
    forall h | h in headers ensures CountIn(HeaderIndicator, x)(h) == Spells(name)(h) {
      HeaderIndicatorCounts(h, name);
    }
    SumsEqual(CountIn(HeaderIndicator, x), Spells(name), headers);
  }

  lemma OneHeaderCall(c: ToolCall, name: Name)
    requires Tracked(name)
    ensures Count(CallIndicators(c), Ascii("header:") + name) == ListsHeader(c, name)
  {
    if c.success && c.output.Some? {
      FirstLetters(name);
      LetterDecides(c.output.value, Ascii("header:") + name);
      HeadersCount(c.output.value.headers, name);
    }
  }

  /** So is each of the three tracked headers, in whatever case it is written. */
  lemma HeadersAreCounted(calls: seq<ToolCall>, name: Name)
    requires Tracked(name)
    ensures Count(Indicators(calls), Ascii("header:") + name) == Sum(HeaderTerm(name), calls)
  {
    var x := Ascii("header:") + name;
    FlatMapCounts(CallIndicators, calls, x);
    forall c | c in calls ensures CountIn(CallIndicators, x)(c) == HeaderTerm(name)(c) {
      OneHeaderCall(c, name);
    }
    SumsEqual(CountIn(CallIndicators, x), HeaderTerm(name), calls);
  }

  // ----- nothing else, and all of it -----

  ghost predicate IsPort(x: Name) { exists p: nat :: x == Ascii("port:") + Ascii(Framing.Decimal(p)) }

  ghost predicate IsEndpoint(x: Name) { exists e: Name :: x == Ascii("endpoint:") + e }

  ghost predicate IsService(x: Name) { exists n: Name :: n != [] && x == Ascii("service:") + n }

  ghost predicate IsHeader(x: Name) { exists n: Name :: Tracked(n) && x == Ascii("header:") + n }

  /** Nothing else is among the indicators. */
  lemma IndicatorsAreOfFourKinds(calls: seq<ToolCall>, x: Name)
    requires x in Indicators(calls)
    ensures IsPort(x) || IsEndpoint(x) || IsService(x) || IsHeader(x)
  {
    var c := FlatMapOrigin(CallIndicators, calls, x);
    var o := c.output.value;
    if x in FlatMap(HeaderIndicator, o.headers) {
      var h := FlatMapOrigin(HeaderIndicator, o.headers, x);
      assert Tracked(Lower(h)) && x == Ascii("header:") + Lower(h);
    } else if x in FlatMap(PortIndicator, Ports(o)) {
      var p := FlatMapOrigin(PortIndicator, Ports(o), x);
      assert x == Ascii("port:") + Ascii(Framing.Decimal(p));
    } else if x in FlatMap(EndpointIndicator, o.endpoints) {
      var e := FlatMapOrigin(EndpointIndicator, o.endpoints, x);
      assert x == Ascii("endpoint:") + e;
    } else {
      var s := FlatMapOrigin(ServiceIndicator, ServiceList(o), x);
      var n := if s.Named? then s.name else s.service.value;
      assert n != [] && x == Ascii("service:") + n;
    }
  }

  /** The same ports, endpoints, service names and tracked headers, each as often. */
  ghost predicate SameContent(calls: seq<ToolCall>, others: seq<ToolCall>) {
    && (forall p: nat :: Sum(PortTerm(p), calls) == Sum(PortTerm(p), others))
    && (forall e: Name :: Sum(EndpointTerm(e), calls) == Sum(EndpointTerm(e), others))
    && (forall n: Name :: n != [] ==> Sum(ServiceTerm(n), calls) == Sum(ServiceTerm(n), others))
    && (forall n: Name :: Tracked(n) ==> Sum(HeaderTerm(n), calls) == Sum(HeaderTerm(n), others))
  }

  lemma ContentDecidesCount(calls: seq<ToolCall>, others: seq<ToolCall>, x: Name)
    requires SameContent(calls, others)
    ensures Count(Indicators(calls), x) == Count(Indicators(others), x)
  {
    if IsPort(x) {
      var p: nat :| x == Ascii("port:") + Ascii(Framing.Decimal(p));
      PortsAreCounted(calls, p);
      PortsAreCounted(others, p);
    } else if IsEndpoint(x) {
      var e: Name :| x == Ascii("endpoint:") + e;
      EndpointsAreCounted(calls, e);
      EndpointsAreCounted(others, e);
    } else if IsService(x) {
      var n: Name :| n != [] && x == Ascii("service:") + n;
      ServicesAreCounted(calls, n);
      ServicesAreCounted(others, n);
    } else if IsHeader(x) {
      var n: Name :| Tracked(n) && x == Ascii("header:") + n;
      HeadersAreCounted(calls, n);
      HeadersAreCounted(others, n);
    } else {
      if x in Indicators(calls) { IndicatorsAreOfFourKinds(calls, x); }
      if x in Indicators(others) { IndicatorsAreOfFourKinds(others, x); }
    }
  }

  lemma CountsDecideContent(calls: seq<ToolCall>, others: seq<ToolCall>)
    requires multiset(Indicators(calls)) == multiset(Indicators(others))
    ensures SameContent(calls, others)
  {
    forall p: nat ensures Sum(PortTerm(p), calls) == Sum(PortTerm(p), others) {
      PortsAreCounted(calls, p);
      PortsAreCounted(others, p);
    }
    forall e: Name ensures Sum(EndpointTerm(e), calls) == Sum(EndpointTerm(e), others) {
      EndpointsAreCounted(calls, e);
      EndpointsAreCounted(others, e);
    }
    forall n: Name | n != [] ensures Sum(ServiceTerm(n), calls) == Sum(ServiceTerm(n), others) {
      ServicesAreCounted(calls, n);
      ServicesAreCounted(others, n);
    }
    forall n: Name | Tracked(n) ensures Sum(HeaderTerm(n), calls) == Sum(HeaderTerm(n), others) {
      HeadersAreCounted(calls, n);
      HeadersAreCounted(others, n);
    }
  }

  function Succeeded(): ToolCall -> bool {
    (c: ToolCall) => c.success
  }

  /** The tool sequence: the names of the successful calls, in order. */
  lemma {:induction false} ToolsAreNames(calls: seq<ToolCall>)
    ensures |Tools(calls)| == |Filter(Succeeded(), calls)|
    ensures forall i | 0 <= i < |Tools(calls)| :: Tools(calls)[i] == Filter(Succeeded(), calls)[i].toolName
  {
    if calls != [] {
      ToolsAreNames(calls[..|calls| - 1]);
    }
  }

  /**
   Sessions have equal signatures exactly when the successful calls name the same tools in the same order and list
   the same ports, endpoints, service names and tracked headers, each as often.
   */
  lemma SignatureIffContent(calls: seq<ToolCall>, others: seq<ToolCall>)
    ensures SignatureOf(calls) == SignatureOf(others) <==> Tools(calls) == Tools(others) && SameContent(calls, others)
  {
    SignatureIsCanonical(calls, others);
    if SameContent(calls, others) {
      forall x: Name ensures multiset(Indicators(calls))[x] == multiset(Indicators(others))[x] {
        ContentDecidesCount(calls, others, x);
      }
    } else if multiset(Indicators(calls)) == multiset(Indicators(others)) {
      CountsDecideContent(calls, others);
    }
  }

  // ----- the order of indicators -----

  /** Unit `k` is the first in which the two differ, and smaller in `a`. */
  predicate IsSmallerAt(a: Name, b: Name, k: int) {
    0 <= k < |a| && k < |b| && a[..k] == b[..k] && a[k] < b[k]
  }

  /** The order of `sort`: a beginning comes first, and otherwise the first different code unit decides. */
  lemma {:induction false} AtMostIff(a: Name, b: Name)
    ensures AtMost(a, b) <==> a <= b || exists k :: IsSmallerAt(a, b, k)
  {
    if a != [] && b != [] {
      AtMostIff(a[1..], b[1..]);
      assert a == [a[0]] + a[1..] && b == [b[0]] + b[1..];
      if k :| IsSmallerAt(a[1..], b[1..], k) && a[0] == b[0] {
        assert a[..k + 1] == [a[0]] + a[1..][..k] && b[..k + 1] == [b[0]] + b[1..][..k];
        assert IsSmallerAt(a, b, k + 1);
      }
      if k :| IsSmallerAt(a, b, k) && k > 0 {
        assert a[..k][0] == a[0] && b[..k][0] == b[0];
        assert a[1..][..k - 1] == a[..k][1..] && b[1..][..k - 1] == b[..k][1..];
        assert IsSmallerAt(a[1..], b[1..], k - 1);
      }
      if a[0] < b[0] {
        assert IsSmallerAt(a, b, 0);
      }
    }
  }

  lemma {:induction false} SortedIff(s: seq<Name>)
    ensures IsSorted(s) <==> forall i, j | 0 <= i < j < |s| :: AtMost(s[i], s[j])
  {
    if s != [] {
      SortedIff(s[1..]);
      assert forall i | 1 <= i < |s| :: s[i] == s[1..][i - 1];
      if IsSorted(s) {
        forall i, j | 0 <= i < j < |s| ensures AtMost(s[i], s[j]) {
          assert s[1..][j - 1] in s[1..];
        }
      }
    }
  }
}
