/**
 Detecting one plan on one scan. Confidence is added up in rounded arithmetic: every sum and every literal goes through
 `round`, of which only what binary64 guarantees is used, and what is proved holds for all such roundings.
 */
module DetectionPlan {
  import opened Wrappers
  import opened Sequences

  datatype Plan = Plan(ports: seq<int>, headers: seq<string>, endpoints: seq<string>, serviceNames: seq<string>)

  datatype Service = Service(port: Option<int>, service: Option<string>)

  /** Missing services are an empty list; headers are the own keys of the headers object, if there is one. */
  datatype Scan = Scan(services: seq<Service>, headers: Option<set<string>>, endpoints: Option<seq<string>>)

  datatype Detection = Detection(matches: bool, confidence: real, indicators: seq<string>)

  predicate KeepsOrder(round: real -> real, x: real, y: real) {
    x <= y ==> round(x) <= round(y)
  }

  /** A number that rounding leaves alone. */
  predicate Fixed(round: real -> real, x: real) {
    round(x) == x
  }

  predicate RoundsOnce(round: real -> real, x: real) {
    Fixed(round, round(x))
  }

  /**
   What holds of rounding to binary64: it keeps the order, rounding again changes nothing, and small dyadic fractions
   are exact.
   */
  ghost predicate IsRounding(round: real -> real) {
    && (forall x, y :: KeepsOrder(round, x, y)) && (forall x :: RoundsOnce(round, x))
    && Fixed(round, 0.0) && Fixed(round, 0.25) && Fixed(round, 0.4375) && Fixed(round, 0.5) && Fixed(round, 1.0)
  }

  /** Exact arithmetic is one of them. */
  lemma ExactIsRounding()
    ensures IsRounding(Exact())
  {
  }

  /** `n` additions of `weight`, each rounded. */
  function Added(round: real -> real, start: real, weight: real, n: nat): real {
    if n == 0 then start else round(Added(round, start, weight, n - 1) + weight)
  }

  /** `header.split(':')[0]`. */
  function BeforeColon(header: string): string {
    if header == "" || header[0] == ':' then "" else [header[0]] + BeforeColon(header[1..])
  }

  predicate PortHit(p: Plan, s: Scan) {
    exists k | 0 <= k < |s.services| :: s.services[k].port.Some? && s.services[k].port.value in p.ports
  }

  predicate EndpointHit(p: Plan, s: Scan) {
    s.endpoints.Some? && exists e | e in p.endpoints :: e in s.endpoints.value
  }

  predicate HeaderHit(lower: string -> string, s: Scan, header: string) {
    s.headers.Some? && (BeforeColon(header) in s.headers.value || lower(BeforeColon(header)) in s.headers.value)
  }

  function FirstService(lower: string -> string, s: Scan): string {
    if s.services != [] && s.services[0].service.Some? then lower(s.services[0].service.value) else ""
  }

  predicate NameHit(lower: string -> string, s: Scan, name: string) {
    Includes(FirstService(lower, s), lower(name))
  }

  function HeaderIndicators(lower: string -> string, s: Scan, headers: seq<string>): seq<string> {
    if headers == [] then []
    else
      var found, last := HeaderIndicators(lower, s, headers[..|headers| - 1]), headers[|headers| - 1];
      if HeaderHit(lower, s, last) then found + [BeforeColon(last) + "-header"] else found
  }

  function NameIndicators(lower: string -> string, s: Scan, names: seq<string>): seq<string> {
    if names == [] then []
    else
      var found, last := NameIndicators(lower, s, names[..|names| - 1]), names[|names| - 1];
      if NameHit(lower, s, last) then found + [last + "-service"] else found
  }

  function PortIndicator(p: Plan, s: Scan): seq<string> {
    if PortHit(p, s) then ["standard-port"] else []
  }

  function EndpointIndicator(p: Plan, s: Scan): seq<string> {
    if EndpointHit(p, s) then ["known-endpoint"] else []
  }

  function Indicators(lower: string -> string, p: Plan, s: Scan): seq<string> {
    PortIndicator(p, s) + HeaderIndicators(lower, s, p.headers) + EndpointIndicator(p, s) +
    NameIndicators(lower, s, p.serviceNames)
  }

  /** The sum of the code: 0.3 for a port, 0.4 a header, 0.5 for an endpoint, 0.3 a service name. */
  function Confidence(round: real -> real, lower: string -> string, p: Plan, s: Scan): real {
    var ports := Added(round, 0.0, round(0.3), |PortIndicator(p, s)|);
    var headers := Added(round, ports, round(0.4), |HeaderIndicators(lower, s, p.headers)|);
    var endpoints := Added(round, headers, 0.5, |EndpointIndicator(p, s)|);
    Added(round, endpoints, round(0.3), |NameIndicators(lower, s, p.serviceNames)|)
  }

  /** The threshold, without arithmetic: a known endpoint, or any two indicators. */
  ghost predicate Matches(lower: string -> string, p: Plan, s: Scan) {
    EndpointHit(p, s) || |Indicators(lower, p, s)| >= 2
  }

  // ----- rounded sums -----

  lemma Literals(round: real -> real)
    requires IsRounding(round)
    ensures 0.25 <= round(0.3) <= 0.4375 && 0.25 <= round(0.4) <= 0.4375
    ensures Fixed(round, round(0.3)) && Fixed(round, round(0.4))
  {
    assert KeepsOrder(round, 0.25, 0.3) && KeepsOrder(round, 0.3, 0.4375);
    assert KeepsOrder(round, 0.25, 0.4) && KeepsOrder(round, 0.4, 0.4375);
    assert RoundsOnce(round, 0.3) && RoundsOnce(round, 0.4);
  }

  /** Adding never lowers a number, and what is at least one half stays so. */
  lemma OneAddition(round: real -> real, a: real, b: real, weight: real)
    requires IsRounding(round) && Fixed(round, a) && a <= b && weight >= 0.0
    ensures a <= round(a + weight) <= round(b + weight) && Fixed(round, round(a + weight))
    ensures a + weight >= 0.5 ==> round(a + weight) >= 0.5
  {
    assert KeepsOrder(round, a, a + weight) && KeepsOrder(round, a + weight, b + weight)
           && RoundsOnce(round, a + weight);
    assert KeepsOrder(round, 0.5, a + weight);
  }

  lemma {:induction false} AddedIsFixed(round: real -> real, start: real, weight: real, n: nat)
    requires IsRounding(round) && Fixed(round, start)
    ensures Fixed(round, Added(round, start, weight, n))
  {
    if n > 0 {
      assert RoundsOnce(round, Added(round, start, weight, n - 1) + weight);
    }
  }

  /** Adding never lowers a sum, and keeps the order of sums. */
  lemma {:induction false} AddedGrows(round: real -> real, a: real, b: real, weight: real, m: nat, n: nat)
    requires IsRounding(round) && Fixed(round, a) && Fixed(round, b) && a <= b && weight >= 0.0 && m <= n
    ensures a <= Added(round, a, weight, m) <= Added(round, b, weight, n)
  {
    if m > 0 {
      AddedGrows(round, a, b, weight, m - 1, n - 1);
      AddedIsFixed(round, a, weight, m - 1);
      OneAddition(round, Added(round, a, weight, m - 1), Added(round, b, weight, n - 1), weight);
    } else if n > 0 {
      AddedGrows(round, a, b, weight, 0, n - 1);
      AddedIsFixed(round, b, weight, n - 1);
      OneAddition(round, Added(round, b, weight, n - 1), Added(round, b, weight, n - 1), weight);
    }
  }

  lemma FirstAdditions(round: real -> real, start: real, weight: real)
    ensures Added(round, start, weight, 1) == round(start + weight)
    ensures Added(round, start, weight, 2) == round(round(start + weight) + weight)
  {
    assert Added(round, start, weight, 1) == round(Added(round, start, weight, 0) + weight);
    assert Added(round, start, weight, 2) == round(Added(round, start, weight, 1) + weight);
  }

  /** From 0, one small weight stays below one half and two reach it; from a quarter on, one does. */
  lemma AddedReaches(round: real -> real, start: real, weight: real, n: nat)
    requires IsRounding(round) && Fixed(round, start) && (start == 0.0 || start >= 0.25)
    requires Fixed(round, weight) && 0.25 <= weight <= 0.4375
    ensures Added(round, start, weight, n) >= 0.5 <==> start >= 0.5 || n >= 2 || (n == 1 && start >= 0.25)
    ensures n >= 1 ==> Added(round, start, weight, n) >= 0.25
  {
    FirstAdditions(round, start, weight);
    OneAddition(round, start, start, weight);
    OneAddition(round, round(start + weight), round(start + weight), weight);
    assert KeepsOrder(round, weight, start + weight);
    if n >= 1 {
      AddedGrows(round, start, start, weight, 1, n);
    }
    if n >= 2 {
      AddedGrows(round, start, start, weight, 2, n);
    }
  }

  /** What a sum says about the indicators counted in it so far. */
  ghost predicate Tells(round: real -> real, sum: real, count: nat, endpoint: bool) {
    && Fixed(round, sum) && sum >= 0.0
    && (sum == 0.0 <==> count == 0) && (count > 0 ==> sum >= 0.25)
    && (sum >= 0.5 <==> endpoint || count >= 2)
  }

  /** Small weights keep that. */
  lemma SmallWeightsTell(round: real -> real, sum: real, count: nat, endpoint: bool, weight: real, n: nat)
    requires IsRounding(round) && Tells(round, sum, count, endpoint) && (endpoint ==> count > 0)
    requires Fixed(round, weight) && 0.25 <= weight <= 0.4375
    ensures Tells(round, Added(round, sum, weight, n), count + n, endpoint)
  {
    AddedIsFixed(round, sum, weight, n);
    AddedReaches(round, sum, weight, n);
  }

  lemma EndpointTells(round: real -> real, sum: real, count: nat, n: nat)
    requires IsRounding(round) && Tells(round, sum, count, false) && n <= 1
    ensures Tells(round, Added(round, sum, 0.5, n), count + n, n == 1)
  {
    AddedIsFixed(round, sum, 0.5, n);
    FirstAdditions(round, sum, 0.5);
    OneAddition(round, sum, sum, 0.5);
  }

  /** The whole sum reaches one half exactly at the threshold, and is 0 exactly without indicators. */
  lemma SumTells(round: real -> real, lower: string -> string, p: Plan, s: Scan)
    requires IsRounding(round)
    ensures Confidence(round, lower, p, s) >= 0.5 <==> Matches(lower, p, s)
    ensures Confidence(round, lower, p, s) == 0.0 <==> Indicators(lower, p, s) == []
    ensures Confidence(round, lower, p, s) >= 0.0
  {
    Literals(round);
    var a, b, c, d := |PortIndicator(p, s)|, |HeaderIndicators(lower, s, p.headers)|, |EndpointIndicator(p, s)|,
                      |NameIndicators(lower, s, p.serviceNames)|;
    var ports := Added(round, 0.0, round(0.3), a);
    var headers := Added(round, ports, round(0.4), b);
    var endpoints := Added(round, headers, 0.5, c);
    SmallWeightsTell(round, 0.0, 0, false, round(0.3), a);
    SmallWeightsTell(round, ports, a, false, round(0.4), b);
    EndpointTells(round, headers, a + b, c);
    SmallWeightsTell(round, endpoints, a + b + c, c == 1, round(0.3), d);
    assert |Indicators(lower, p, s)| == a + b + c + d;
  }

  // ----- the loops -----

  method DetectHeaders(round: real -> real, lower: string -> string, p: Plan, s: Scan, held: real, before: seq<string>)
    returns (confidence: real, indicators: seq<string>)
    ensures indicators == before + HeaderIndicators(lower, s, p.headers)
    ensures confidence == Added(round, held, round(0.4), |HeaderIndicators(lower, s, p.headers)|)
  {
    confidence, indicators := held, before;
    for i := 0 to |p.headers|
      invariant indicators == before + HeaderIndicators(lower, s, p.headers[..i])
      invariant confidence == Added(round, held, round(0.4), |HeaderIndicators(lower, s, p.headers[..i])|)
    {
      assert p.headers[..i + 1][..i] == p.headers[..i];
      var key := BeforeColon(p.headers[i]);
      if s.headers.Some? && (key in s.headers.value || lower(key) in s.headers.value) {
        confidence, indicators := round(confidence + round(0.4)), indicators + [key + "-header"];
      }
    }
    assert p.headers[..|p.headers|] == p.headers;
  }

  method DetectNames(round: real -> real, lower: string -> string, p: Plan, s: Scan, held: real, before: seq<string>)
    returns (confidence: real, indicators: seq<string>)
    ensures indicators == before + NameIndicators(lower, s, p.serviceNames)
    ensures confidence == Added(round, held, round(0.3), |NameIndicators(lower, s, p.serviceNames)|)
  {
    confidence, indicators := held, before;
    var serviceName := FirstService(lower, s);
    for i := 0 to |p.serviceNames|
      invariant indicators == before + NameIndicators(lower, s, p.serviceNames[..i])
      invariant confidence == Added(round, held, round(0.3), |NameIndicators(lower, s, p.serviceNames[..i])|)
    {
      assert p.serviceNames[..i + 1][..i] == p.serviceNames[..i];
      if Includes(serviceName, lower(p.serviceNames[i])) {
        confidence, indicators := round(confidence + round(0.3)), indicators + [p.serviceNames[i] + "-service"];
      }
    }
    assert p.serviceNames[..|p.serviceNames|] == p.serviceNames;
  }

  /** `detectWithPlan`. */
  method DetectWithPlan(round: real -> real, lower: string -> string, p: Plan, s: Scan) returns (d: Detection)
    requires IsRounding(round)
    ensures d.indicators == Indicators(lower, p, s)
    ensures d.confidence == Capped(Confidence(round, lower, p, s))
    ensures d.matches <==> Matches(lower, p, s)
    ensures 0.0 <= d.confidence <= 1.0 && d.confidence <= Confidence(round, lower, p, s)
    ensures d.confidence == Confidence(round, lower, p, s) || (d.confidence == 1.0 && d.matches)
    ensures d.confidence == 0.0 <==> d.indicators == []
  {
    var confidence, indicators := DetectAll(round, lower, p, s);
    SumTells(round, lower, p, s);
    d := Detection(confidence >= 0.5, Capped(confidence), indicators);
  }

  method DetectAll(round: real -> real, lower: string -> string, p: Plan, s: Scan)
      returns (confidence: real, indicators: seq<string>)
    ensures indicators == Indicators(lower, p, s) && confidence == Confidence(round, lower, p, s)
  {
    confidence, indicators := DetectOnce(round, 0.0, round(0.3), [], PortIndicator(p, s));
    assert indicators == PortIndicator(p, s);
    confidence, indicators := DetectHeaders(round, lower, p, s, confidence, indicators);
    confidence, indicators := DetectOnce(round, confidence, 0.5, indicators, EndpointIndicator(p, s));
    confidence, indicators := DetectNames(round, lower, p, s, confidence, indicators);
  }

  /** The two indicators found without a loop. */
  method DetectOnce(round: real -> real, held: real, weight: real, before: seq<string>, found: seq<string>)
    returns (confidence: real, indicators: seq<string>)
    requires |found| <= 1
    ensures indicators == before + found && confidence == Added(round, held, weight, |found|)
  {
    confidence, indicators := held, before;
    FirstAdditions(round, held, weight);
    if found != [] {
      confidence, indicators := round(confidence + weight), indicators + found;
    }
  }

  function Capped(x: real): real {
    if x <= 1.0 then x else 1.0
  }

  /** `more` shows at least what `s` shows, and the same first service. */
  predicate ShowsMore(s: Scan, more: Scan) {
    && s.services <= more.services && (s.services == [] ==> more.services == [])
    && (s.headers.Some? ==> more.headers.Some? && s.headers.value <= more.headers.value)
    && (s.endpoints.Some? ==> more.endpoints.Some? && forall e | e in s.endpoints.value :: e in more.endpoints.value)
  }

  lemma {:induction false} MoreHeaders(lower: string -> string, s: Scan, more: Scan, headers: seq<string>)
    requires ShowsMore(s, more)
    ensures |HeaderIndicators(lower, s, headers)| <= |HeaderIndicators(lower, more, headers)|
  {
    if headers != [] {
      MoreHeaders(lower, s, more, headers[..|headers| - 1]);
    }
  }

  lemma {:induction false} SameNames(lower: string -> string, s: Scan, more: Scan, names: seq<string>)
    requires FirstService(lower, s) == FirstService(lower, more)
    ensures NameIndicators(lower, s, names) == NameIndicators(lower, more, names)
  {
    if names != [] {
      SameNames(lower, s, more, names[..|names| - 1]);
    }
  }

  /** Detection is monotone: showing more never lowers the confidence nor loses a match. */
  lemma MoreIsNeverLess(round: real -> real, lower: string -> string, p: Plan, s: Scan, more: Scan)
    requires IsRounding(round) && ShowsMore(s, more)
    ensures Capped(Confidence(round, lower, p, s)) <= Capped(Confidence(round, lower, p, more))
    ensures Matches(lower, p, s) ==> Matches(lower, p, more)
  {
    SumGrows(round, lower, p, s, more);
    SumTells(round, lower, p, s);
    SumTells(round, lower, p, more);
  }

  lemma MoreIndicators(lower: string -> string, p: Plan, s: Scan, more: Scan)
    requires ShowsMore(s, more)
    ensures |PortIndicator(p, s)| <= |PortIndicator(p, more)|
    ensures |HeaderIndicators(lower, s, p.headers)| <= |HeaderIndicators(lower, more, p.headers)|
    ensures |EndpointIndicator(p, s)| <= |EndpointIndicator(p, more)|
    ensures |NameIndicators(lower, s, p.serviceNames)| <= |NameIndicators(lower, more, p.serviceNames)|
  {
    MoreHeaders(lower, s, more, p.headers);
    assert s.services != [] ==> s.services[0] == more.services[0];
    SameNames(lower, s, more, p.serviceNames);
    if PortHit(p, s) {
      var k :| 0 <= k < |s.services| && s.services[k].port.Some? && s.services[k].port.value in p.ports;
      assert more.services[k] == s.services[k];
      assert PortHit(p, more);
    }
  }

  lemma SumGrows(round: real -> real, lower: string -> string, p: Plan, s: Scan, more: Scan)
    requires IsRounding(round) && ShowsMore(s, more)
    ensures Confidence(round, lower, p, s) <= Confidence(round, lower, p, more)
  {
    Literals(round);
    MoreIndicators(lower, p, s, more);
    var w, v := round(0.3), round(0.4);
    var a, b := Added(round, 0.0, w, |PortIndicator(p, s)|), Added(round, 0.0, w, |PortIndicator(p, more)|);
    OrderedSums(round, 0.0, 0.0, w, |PortIndicator(p, s)|, |PortIndicator(p, more)|);
    OrderedSums(round, a, b, v, |HeaderIndicators(lower, s, p.headers)|, |HeaderIndicators(lower, more, p.headers)|);
    var c := Added(round, a, v, |HeaderIndicators(lower, s, p.headers)|);
    var d := Added(round, b, v, |HeaderIndicators(lower, more, p.headers)|);
    OrderedSums(round, c, d, 0.5, |EndpointIndicator(p, s)|, |EndpointIndicator(p, more)|);
    OrderedSums(round, Added(round, c, 0.5, |EndpointIndicator(p, s)|),
                Added(round, d, 0.5, |EndpointIndicator(p, more)|), w,
                |NameIndicators(lower, s, p.serviceNames)|, |NameIndicators(lower, more, p.serviceNames)|);
  }

  lemma OrderedSums(round: real -> real, a: real, b: real, weight: real, m: nat, n: nat)
    requires IsRounding(round) && Fixed(round, a) && Fixed(round, b) && a <= b && weight >= 0.0 && m <= n
    ensures Added(round, a, weight, m) <= Added(round, b, weight, n)
    ensures Fixed(round, Added(round, a, weight, m)) && Fixed(round, Added(round, b, weight, n))
  {
    AddedGrows(round, a, b, weight, m, n);
    AddedIsFixed(round, a, weight, m);
    AddedIsFixed(round, b, weight, n);
  }

  // ----- which indicators there are -----

  /** The text of a header up to its first colon. */
  predicate IsKeyOf(header: string, key: string) {
    ':' !in key && (header == key || (|key| < |header| && header[..|key|] == key && header[|key|] == ':'))
  }

  lemma {:induction false} BeforeColonIff(header: string, key: string)
    ensures BeforeColon(header) == key <==> IsKeyOf(header, key)
  {
    if header != "" && header[0] != ':' {
      if key != "" {
        BeforeColonIff(header[1..], key[1..]);
        assert key == [key[0]] + key[1..] && header == [header[0]] + header[1..];
        if IsKeyOf(header, key) && header != key {
          assert header[..|key|][0] == key[0] && header[1..][..|key| - 1] == header[..|key|][1..];
        }
        if header[0] == key[0] && IsKeyOf(header[1..], key[1..]) && |key| < |header| {
          assert header[..|key|] == [header[0]] + header[1..][..|key| - 1];
        }
      }
    }
  }

  /**
   A header of the plan counts when its text up to the colon, as given or in lower case, is a header key of the scan.
   */
  ghost predicate HeaderCounts(lower: string -> string, s: Scan, header: string) {
    s.headers.Some? && exists key :: IsKeyOf(header, key) && (key in s.headers.value || lower(key) in s.headers.value)
  }

  /**
   A service name counts when its lower-case text occurs somewhere in that of the first service; no service has none.
   */
  ghost predicate NameCounts(lower: string -> string, s: Scan, name: string) {
    if s.services == [] || s.services[0].service.None? then lower(name) == ""
    else exists i :: OccursAt(lower(s.services[0].service.value), lower(name), i)
  }

  lemma HeaderCountsIff(lower: string -> string, s: Scan, header: string)
    ensures HeaderHit(lower, s, header) <==> HeaderCounts(lower, s, header)
  {
    BeforeColonIff(header, BeforeColon(header));
    forall key | IsKeyOf(header, key) ensures key == BeforeColon(header) {
      BeforeColonIff(header, key);
    }
  }

  lemma NameCountsIff(lower: string -> string, s: Scan, name: string)
    ensures NameHit(lower, s, name) <==> NameCounts(lower, s, name)
  {
    IncludesIff(FirstService(lower, s), lower(name));
  }

  function HeaderTest(lower: string -> string, s: Scan): string -> bool {
    header => HeaderHit(lower, s, header)
  }

  function NameTest(lower: string -> string, s: Scan): string -> bool {
    name => NameHit(lower, s, name)
  }

  /** The header indicators name exactly the headers that count, in order, by their text up to the colon. */
  lemma {:induction false} HeaderIndicatorsAre(lower: string -> string, s: Scan, headers: seq<string>)
    ensures var hits := Filter(HeaderTest(lower, s), headers);
            && (forall h :: h in hits <==> h in headers && HeaderCounts(lower, s, h))
            && Subsequence(hits, headers) && |HeaderIndicators(lower, s, headers)| == |hits|
            && forall i | 0 <= i < |hits| ::
                 exists key :: IsKeyOf(hits[i], key) && HeaderIndicators(lower, s, headers)[i] == key + "-header"
  {
    var hits := Filter(HeaderTest(lower, s), headers);
    FilterMembers(HeaderTest(lower, s), headers);
    FilterIsSubsequence(HeaderTest(lower, s), headers);
    forall h | h in headers ensures HeaderHit(lower, s, h) <==> HeaderCounts(lower, s, h) {
      HeaderCountsIff(lower, s, h);
    }
    HeaderIndicatorTexts(lower, s, headers);
    forall i | 0 <= i < |hits|
      ensures exists key :: IsKeyOf(hits[i], key) && HeaderIndicators(lower, s, headers)[i] == key + "-header"
    {
      BeforeColonIff(hits[i], BeforeColon(hits[i]));
    }
  }

  lemma {:induction false} HeaderIndicatorTexts(lower: string -> string, s: Scan, headers: seq<string>)
    ensures var hits := Filter(HeaderTest(lower, s), headers);
            && |HeaderIndicators(lower, s, headers)| == |hits|
            && forall i | 0 <= i < |hits| :: HeaderIndicators(lower, s, headers)[i] == BeforeColon(hits[i]) + "-header"
  {
    if headers != [] {
      HeaderIndicatorTexts(lower, s, headers[..|headers| - 1]);
    }
  }

  /** The service indicators name exactly the service names that count, in order. */
  lemma NameIndicatorsAre(lower: string -> string, s: Scan, names: seq<string>)
    ensures var hits := Filter(NameTest(lower, s), names);
            && (forall n :: n in hits <==> n in names && NameCounts(lower, s, n))
            && Subsequence(hits, names) && |NameIndicators(lower, s, names)| == |hits|
            && forall i | 0 <= i < |hits| :: NameIndicators(lower, s, names)[i] == hits[i] + "-service"
  {
    FilterMembers(NameTest(lower, s), names);
    FilterIsSubsequence(NameTest(lower, s), names);
    forall n | n in names ensures NameHit(lower, s, n) <==> NameCounts(lower, s, n) {
      NameCountsIff(lower, s, n);
    }
    NameIndicatorTexts(lower, s, names);
  }

  lemma {:induction false} NameIndicatorTexts(lower: string -> string, s: Scan, names: seq<string>)
    ensures var hits := Filter(NameTest(lower, s), names);
            && |NameIndicators(lower, s, names)| == |hits|
            && forall i | 0 <= i < |hits| :: NameIndicators(lower, s, names)[i] == hits[i] + "-service"
  {
    if names != [] {
      NameIndicatorTexts(lower, s, names[..|names| - 1]);
    }
  }

  /**
   All indicators: the port, if a service runs on one of the plan's; the headers; the endpoint, if a known one was seen;
   the service names.
   */
  lemma IndicatorsAre(lower: string -> string, p: Plan, s: Scan)
    ensures Indicators(lower, p, s) ==
            (if exists k | 0 <= k < |s.services| :: s.services[k].port.Some? && s.services[k].port.value in p.ports
             then ["standard-port"] else []) +
            HeaderIndicators(lower, s, p.headers) +
            (if s.endpoints.Some? && exists e :: e in p.endpoints && e in s.endpoints.value then ["known-endpoint"]
             else []) +
            NameIndicators(lower, s, p.serviceNames)
  {
  }

  function Exact(): real -> real {
    x => x
  }

  /** In exact arithmetic the confidence is three tenths a port, four a header, five an endpoint and three a name. */
  lemma ExactConfidence(lower: string -> string, p: Plan, s: Scan)
    ensures 10.0 * Confidence(Exact(), lower, p, s) ==
            (3 * |PortIndicator(p, s)| + 4 * |HeaderIndicators(lower, s, p.headers)| + 5 * |EndpointIndicator(p, s)| +
             3 * |NameIndicators(lower, s, p.serviceNames)|) as real
  {
    var a := Added(Exact(), 0.0, 0.3, |PortIndicator(p, s)|);
    var b := Added(Exact(), a, 0.4, |HeaderIndicators(lower, s, p.headers)|);
    var c := Added(Exact(), b, 0.5, |EndpointIndicator(p, s)|);
    ExactlyAdded(0.0, 0.3, |PortIndicator(p, s)|);
    ExactlyAdded(a, 0.4, |HeaderIndicators(lower, s, p.headers)|);
    ExactlyAdded(b, 0.5, |EndpointIndicator(p, s)|);
    ExactlyAdded(c, 0.3, |NameIndicators(lower, s, p.serviceNames)|);
  }

  lemma {:induction false} ExactlyAdded(start: real, weight: real, n: nat)
    ensures Added(Exact(), start, weight, n) == start + n as real * weight
  {
    if n > 0 {
      ExactlyAdded(start, weight, n - 1);
    }
  }
}
