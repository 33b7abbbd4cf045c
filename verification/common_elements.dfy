/** The elements a group of similar sessions has in common: counting loops with a threshold of half the sessions. */
module CommonElements {
  import opened RequestShape
  import opened SessionSignature
  import opened Sequences

  function Count<X(==)>(items: seq<X>, x: X): nat {
    multiset(items)[x]
  }

  /** The keys of a `Map` filled from `items`: each element once, at its first occurrence. */
  function Distinct<X(==)>(items: seq<X>): seq<X> {
    if items == [] then []
    else
      var before, x := items[..|items| - 1], items[|items| - 1];
      if x in before then Distinct(before) else Distinct(before) + [x]
  }

  /** `x` occurs before the first `y`. */
  ghost predicate Precedes<X(!new)>(items: seq<X>, x: X, y: X) {
    exists n | 0 <= n <= |items| :: x in items[..n] && y !in items[..n]
  }

  ghost predicate NoRepeats<X(!new)>(s: seq<X>) {
    forall i, j | 0 <= i < j < |s| :: s[i] != s[j]
  }

  lemma {:induction false} DistinctElements<X(!new)>(items: seq<X>)
    ensures forall x :: x in Distinct(items) <==> x in items
    ensures NoRepeats(Distinct(items))
  {
    if items != [] {
      var n := |items| - 1;
      DistinctElements(items[..n]);
      assert items == items[..n] + [items[n]];
    }
  }

  lemma PrecedesLater<X(!new)>(items: seq<X>, n: nat, x: X, y: X)
    requires n <= |items| && Precedes(items[..n], x, y)
    ensures Precedes(items, x, y)
  {
    var k :| 0 <= k <= n && x in items[..n][..k] && y !in items[..n][..k];
    assert items[..n][..k] == items[..k];
  }

  lemma {:induction false} DistinctOrder<X(!new)>(items: seq<X>, i: nat, j: nat)
    requires i < j < |Distinct(items)|
    ensures Precedes(items, Distinct(items)[i], Distinct(items)[j])
  {
    var n, d := |items| - 1, Distinct(items);
    DistinctElements(items[..n]);
    if j < |Distinct(items[..n])| {
      DistinctOrder(items[..n], i, j);
      PrecedesLater(items, n, d[i], d[j]);
    } else {
      assert d[i] in items[..n] && d[j] !in items[..n];
    }
  }

  function Reaching<X>(counts: multiset<X>, sessions: nat): X -> bool {
    x => 2 * counts[x] >= sessions
  }

  function Keep<X(==)>(keys: seq<X>, counts: multiset<X>, sessions: nat): seq<X> {
    Filter(Reaching(counts, sessions), keys)
  }

  function Common<X(==)>(items: seq<X>, sessions: nat): seq<X> {
    Keep(Distinct(items), multiset(items), sessions)
  }

  lemma {:induction false} KeepElements<X(!new)>(keys: seq<X>, counts: multiset<X>, sessions: nat)
    requires NoRepeats(keys)
    ensures forall x :: x in Keep(keys, counts, sessions) <==> x in keys && 2 * counts[x] >= sessions
    ensures NoRepeats(Keep(keys, counts, sessions))
  {
    if keys != [] {
      var n := |keys| - 1;
      KeepElements(keys[..n], counts, sessions);
      assert keys == keys[..n] + [keys[n]];
    }
  }

  lemma {:induction false} KeepOrder<X(!new)>(items: seq<X>, keys: seq<X>, counts: multiset<X>, sessions: nat,
                                              i: nat, j: nat)
    requires NoRepeats(keys) && forall a, b | 0 <= a < b < |keys| :: Precedes(items, keys[a], keys[b])
    requires i < j < |Keep(keys, counts, sessions)|
    ensures Precedes(items, Keep(keys, counts, sessions)[i], Keep(keys, counts, sessions)[j])
  {
    var n := |keys| - 1;
    KeepElements(keys[..n], counts, sessions);
    var kept := Keep(keys[..n], counts, sessions);
    if j < |kept| {
      KeepOrder(items, keys[..n], counts, sessions, i, j);
    } else {
      assert kept[i] in keys[..n];
    }
  }

  /**
   The common elements are exactly those that reach half of the sessions, each once, in the order of their first
   occurrence.
   */
  lemma CommonIsExact<X(!new)>(items: seq<X>, sessions: nat)
    ensures forall x :: x in Common(items, sessions) <==> x in items && 2 * Count(items, x) >= sessions
    ensures forall i, j | 0 <= i < j < |Common(items, sessions)| ::
              Common(items, sessions)[i] != Common(items, sessions)[j]
              && Precedes(items, Common(items, sessions)[i], Common(items, sessions)[j])
  {
    DistinctElements(items);
    KeepElements(Distinct(items), multiset(items), sessions);
    forall a, b | 0 <= a < b < |Distinct(items)|
      ensures Precedes(items, Distinct(items)[a], Distinct(items)[b])
    {
      DistinctOrder(items, a, b);
    }
    forall i, j | 0 <= i < j < |Common(items, sessions)|
      ensures Precedes(items, Common(items, sessions)[i], Common(items, sessions)[j])
    {
      KeepOrder(items, Distinct(items), multiset(items), sessions, i, j);
    }
  }

  // ----- counting -----

  function Total<X>(keys: seq<X>, counts: multiset<X>): nat {
    if keys == [] then 0 else Total(keys[..|keys| - 1], counts) + counts[keys[|keys| - 1]]
  }

  lemma {:induction false} TotalGrows<X(!new)>(keys: seq<X>, counts: multiset<X>, x: X)
    requires NoRepeats(keys)
    ensures Total(keys, counts + multiset{x}) == Total(keys, counts) + if x in keys then 1 else 0
  {
    if keys != [] {
      var n := |keys| - 1;
      TotalGrows(keys[..n], counts, x);
      assert keys == keys[..n] + [keys[n]];
    }
  }

  /** Different elements never count more together than there are items, and all of them count exactly that. */
  lemma {:induction false} CountsSum<X(!new)>(items: seq<X>, keys: seq<X>)
    requires NoRepeats(keys)
    ensures Total(keys, multiset(items)) <= |items|
    ensures (forall x | x in items :: x in keys) ==> Total(keys, multiset(items)) == |items|
  {
    if items == [] {
      TotalOfNone(keys);
      assert multiset(items) == multiset{};
    } else {
      var n := |items| - 1;
      assert items == items[..n] + [items[n]];
      CountsSum(items[..n], keys);
      TotalGrows(keys, multiset(items[..n]), items[n]);
    }
  }

  lemma {:induction false} TotalOfNone<X>(keys: seq<X>)
    ensures Total(keys, multiset{}) == 0
  {
    if keys != [] {
      TotalOfNone(keys[..|keys| - 1]);
    }
  }

  lemma {:induction false} TotalOfFrequent<X>(keys: seq<X>, counts: multiset<X>, sessions: nat)
    requires forall x | x in keys :: 2 * counts[x] >= sessions
    ensures 2 * Total(keys, counts) >= |keys| * sessions
  {
    if keys != [] {
      var n := |keys| - 1;
      TotalOfFrequent(keys[..n], counts, sessions);
      assert |keys| * sessions == n * sessions + sessions;
    }
  }

  /** The pigeonhole bound: as many common elements as fit into twice the items. */
  lemma CommonIsBounded<X(!new)>(items: seq<X>, sessions: nat)
    ensures |Common(items, sessions)| * sessions <= 2 * |items|
  {
    CommonIsExact(items, sessions);
    CountsSum(items, Common(items, sessions));
    TotalOfFrequent(Common(items, sessions), multiset(items), sessions);
  }

  lemma NoRoom<X(!new)>(items: seq<X>, keys: seq<X>, x: X)
    requires NoRepeats(keys) && x in items && x !in keys
    ensures Total(keys, multiset(items)) < |items|
  {
    CountsSum(items, keys + [x]);
    assert (keys + [x])[..|keys|] == keys && Count(items, x) > 0;
  }

  lemma ThreeAreTooMany(k: nat, n: nat)
    requires k >= 3 && n > 0
    ensures k * n > 2 * n
  {
    assert k * n == 3 * n + (k - 3) * n;
  }

  /** Two elements that each reach half of the items share them evenly and leave none for a third. */
  lemma HalvesFill<X(!new)>(items: seq<X>, x: X, y: X)
    requires x != y && 2 * Count(items, x) >= |items| && 2 * Count(items, y) >= |items|
    ensures 2 * Count(items, x) == |items| == 2 * Count(items, y)
    ensures forall z | z in items :: z in [x, y]
  {
    TotalOfPair(x, y, multiset(items));
    CountsSum(items, [x, y]);
    forall z | z in items
      ensures z in [x, y]
    {
      if z !in [x, y] { NoRoom(items, [x, y], z); }
    }
  }

  lemma TotalOfPair<X>(x: X, y: X, counts: multiset<X>)
    ensures Total([x, y], counts) == counts[x] + counts[y]
  {
    assert [x, y][..1] == [x] && [x][..0] == [];
    assert Total([x], counts) == Total([x][..0], counts) + counts[x];
    assert Total([x, y], counts) == Total([x, y][..1], counts) + counts[y];
  }

  /** With one item per session there are at most two; two share the sessions evenly and leave none for a third. */
  lemma AtMostTwo<X(!new)>(items: seq<X>)
    ensures |Common(items, |items|)| <= 2
    ensures var c := Common(items, |items|);
            |c| == 2 ==>
              && 2 * Count(items, c[0]) == |items| == 2 * Count(items, c[1])
              && forall x | x in items :: x in [c[0], c[1]]
  {
    var c, n := Common(items, |items|), |items|;
    CommonIsBounded(items, n);
    CommonIsExact(items, n);
    if items == [] {
      assert c == [];
    } else {
      if |c| >= 3 { ThreeAreTooMany(|c|, n); }
      if |c| == 2 {
        assert c[0] in c && c[1] in c;
        HalvesFill(items, c[0], c[1]);
      }
    }
  }

  // ----- the loops -----

  method CountItems<X(==,!new)>(items: seq<X>) returns (counts: map<X, nat>, order: seq<X>)
    ensures order == Distinct(items)
    ensures forall x :: x in counts <==> x in items
    ensures forall x | x in counts :: counts[x] == Count(items, x)
  {
    counts, order := map[], [];
    for i := 0 to |items|
      invariant order == Distinct(items[..i])
      invariant forall x :: x in counts <==> x in items[..i]
      invariant forall x | x in counts :: counts[x] == Count(items[..i], x)
    {
      var x := items[i];
      assert items[..i + 1] == items[..i] + [x];
      if x !in counts { order := order + [x]; }
      counts := counts[x := (if x in counts then counts[x] else 0) + 1];
    }
    assert items[..|items|] == items;
  }

  method FrequentItems<X(==,!new)>(items: seq<X>, sessions: nat) returns (common: seq<X>)
    ensures common == Common(items, sessions)
  {
    var counts, order := CountItems(items);
    DistinctElements(items);
    common := [];
    for i := 0 to |order|
      invariant common == Keep(order[..i], multiset(items), sessions)
    {
      assert order[..i + 1][..i] == order[..i];
      assert order[i] in order;
      if 2 * counts[order[i]] >= sessions { common := common + [order[i]]; }
    }
    assert order[..|order|] == order;
  }

  /** `extractCommonPorts`: at most two ports, exactly those at half of the sessions or more. */
  method ExtractCommonPorts(targetPorts: seq<int>) returns (ports: seq<int>)
    ensures ports == Common(targetPorts, |targetPorts|)
    ensures |ports| <= 2
    ensures forall p :: p in ports <==> p in targetPorts && 2 * Count(targetPorts, p) >= |targetPorts|
  {
    ports := FrequentItems(targetPorts, |targetPorts|);
    AtMostTwo(targetPorts);
    CommonIsExact(targetPorts, |targetPorts|);
  }

  predicate StartsWith(name: Name, prefix: Name) {
    |prefix| <= |name| && name[..|prefix|] == prefix
  }

  function StartingWith(prefix: Name): Name -> bool {
    name => StartsWith(name, prefix)
  }

  function WithPrefix(names: seq<Name>, prefix: Name): seq<Name> {
    Filter(StartingWith(prefix), names)
  }

  function Listed(sessions: seq<seq<ToolCall>>, prefix: Name): seq<Name> {
    if sessions == [] then []
    else
      var n := |sessions| - 1;
      Listed(sessions[..n], prefix) + WithPrefix(SignatureOf(sessions[n]).indicators, prefix)
  }

  lemma {:induction false} WithPrefixCounts(names: seq<Name>, prefix: Name, name: Name)
    ensures Count(WithPrefix(names, prefix), name) == if StartsWith(name, prefix) then Count(names, name) else 0
  {
    if names != [] {
      var n := |names| - 1;
      WithPrefixCounts(names[..n], prefix, name);
      assert names == names[..n] + [names[n]];
    }
  }

  function HeldBy(name: Name): seq<ToolCall> -> nat {
    calls => Count(Indicators(calls), name)
  }

  /** How often a name is listed: once for each time a session's indicators hold it, repetitions included. */
  function Listings(sessions: seq<seq<ToolCall>>, name: Name): nat {
    Sum(HeldBy(name), sessions)
  }

  lemma {:induction false} ListedCounts(sessions: seq<seq<ToolCall>>, prefix: Name, name: Name)
    ensures Count(Listed(sessions, prefix), name) == if StartsWith(name, prefix) then Listings(sessions, name) else 0
  {
    if sessions != [] {
      var n := |sessions| - 1;
      ListedCounts(sessions[..n], prefix, name);
      WithPrefixCounts(SignatureOf(sessions[n]).indicators, prefix, name);
    }
  }

  /** `replace(prefix, '')` on a name that starts with the prefix. */
  function Rest(name: Name, prefix: Name): (r: Name)
    ensures StartsWith(name, prefix) ==> name == prefix + r
  {
    if StartsWith(name, prefix) then name[|prefix|..] else name
  }

  function Strip(names: seq<Name>, prefix: Name): seq<Name> {
    seq(|names|, i requires 0 <= i < |names| => Rest(names[i], prefix))
  }

  lemma ListedStart(sessions: seq<seq<ToolCall>>, prefix: Name)
    ensures forall name | name in Listed(sessions, prefix) :: StartsWith(name, prefix)
  {
    forall name | name in Listed(sessions, prefix)
      ensures StartsWith(name, prefix)
    {
      ListedCounts(sessions, prefix, name);
      assert Count(Listed(sessions, prefix), name) > 0;
    }
  }

  /** The name is listed, and at least half as often as there are sessions. */
  predicate Reaches(sessions: seq<seq<ToolCall>>, name: Name) {
    2 * Listings(sessions, name) >= |sessions| && Listings(sessions, name) > 0
  }

  lemma NameIsCommon(sessions: seq<seq<ToolCall>>, prefix: Name, name: Name)
    ensures name in Strip(Common(Listed(sessions, prefix), |sessions|), prefix) <==> Reaches(sessions, prefix + name)
  {
    var listed := Listed(sessions, prefix);
    CommonIsExact(listed, |sessions|);
    ListedStart(sessions, prefix);
    ListedCounts(sessions, prefix, prefix + name);
    StripElement(Common(listed, |sessions|), prefix, name);
    assert prefix + name in listed <==> Count(listed, prefix + name) > 0;
  }

  method ListNames(sessions: seq<seq<ToolCall>>, prefix: Name) returns (listed: seq<Name>)
    ensures listed == Listed(sessions, prefix)
  {
    listed := [];
    for i := 0 to |sessions|
      invariant listed == Listed(sessions[..i], prefix)
    {
      assert sessions[..i + 1][..i] == sessions[..i];
      var signature := GenerateSignature(sessions[i]);
      var kept := FilterPrefix(signature.indicators, prefix);
      listed := listed + kept;
    }
    assert sessions[..|sessions|] == sessions;
  }

  /**
   The loops of `extractCommonHeaders`, `extractCommonEndpoints` and `extractCommonServiceNames`, which differ in
   their prefix:
   exactly the names listed at least half as often as there are sessions.
   */
  method ExtractCommonNames(sessions: seq<seq<ToolCall>>, prefix: Name) returns (names: seq<Name>)
    ensures names == Strip(Common(Listed(sessions, prefix), |sessions|), prefix)
    ensures forall name :: name in names <==> Reaches(sessions, prefix + name)
    ensures forall i, j | 0 <= i < j < |names| :: names[i] != names[j]
    ensures forall name | NoneRepeats(sessions, prefix + name) :: name in names <==> HeldByHalf(sessions, prefix + name)
  {
    var listed := ListNames(sessions, prefix);
    var common := FrequentItems(listed, |sessions|);
    CommonIsExact(listed, |sessions|);
    ListedStart(sessions, prefix);
    names := Strip(common, prefix);
    assert forall i | 0 <= i < |common| :: common[i] in common;
    forall name
      ensures name in names <==> Reaches(sessions, prefix + name)
      ensures NoneRepeats(sessions, prefix + name) ==> (name in names <==> HeldByHalf(sessions, prefix + name))
    {
      NameIsCommon(sessions, prefix, name);
      ReportedIffHeldIff(sessions, prefix + name);
    }
  }

  lemma StripElement(names: seq<Name>, prefix: Name, name: Name)
    requires forall x | x in names :: StartsWith(x, prefix)
    ensures name in Strip(names, prefix) <==> prefix + name in names
    ensures StartsWith(prefix + name, prefix)
  {
    assert (prefix + name)[|prefix|..] == name;
    if prefix + name in names {
      var i :| 0 <= i < |names| && names[i] == prefix + name;
      assert Strip(names, prefix)[i] == name;
    }
    assert forall i | 0 <= i < |names| :: names[i] in names && names[i] == prefix + Strip(names, prefix)[i];
  }

  method FilterPrefix(names: seq<Name>, prefix: Name) returns (kept: seq<Name>)
    ensures kept == WithPrefix(names, prefix)
  {
    kept := [];
    for i := 0 to |names|
      invariant kept == WithPrefix(names[..i], prefix)
    {
      assert names[..i + 1][..i] == names[..i];
      if StartsWith(names[i], prefix) { kept := kept + [names[i]]; }
    }
    assert names[..|names|] == names;
  }

  // ----- listings and holders -----

  function Holds(name: Name): seq<ToolCall> -> nat {
    calls => if name in Indicators(calls) then 1 else 0
  }

  /** How many sessions hold the name, however often each. */
  function Holders(sessions: seq<seq<ToolCall>>, name: Name): nat {
    Sum(Holds(name), sessions)
  }

  predicate NoneRepeats(sessions: seq<seq<ToolCall>>, name: Name) {
    forall calls | calls in sessions :: Count(Indicators(calls), name) <= 1
  }

  /** A name is listed at least as often as it is held, and exactly as often when no session repeats it. */
  lemma ListingsAreHoldersIff(sessions: seq<seq<ToolCall>>, name: Name)
    ensures Holders(sessions, name) <= Listings(sessions, name)
    ensures Holders(sessions, name) == Listings(sessions, name) <==> NoneRepeats(sessions, name)
    ensures Holders(sessions, name) > 0 <==> Listings(sessions, name) > 0
  {
    SumsAgreeIff(Holds(name), HeldBy(name), sessions);
    SumIsPositiveIff(Holds(name), sessions);
    SumIsPositiveIff(HeldBy(name), sessions);
    forall calls: seq<ToolCall>
      ensures Holds(name)(calls) > 0 <==> HeldBy(name)(calls) > 0
      ensures Holds(name)(calls) == HeldBy(name)(calls) <==> Count(Indicators(calls), name) <= 1
    {
      assert name in Indicators(calls) <==> Count(Indicators(calls), name) > 0;
    }
  }

  /** What "common" is meant to say: at least half of the sessions hold the name. */
  predicate HeldByHalf(sessions: seq<seq<ToolCall>>, name: Name) {
    2 * Holders(sessions, name) >= |sessions| && Holders(sessions, name) > 0
  }

  /**
   A name is reported exactly when half of the sessions hold it, if and only if its listings do not reach half of the
   sessions where its holders fail to; so always when no session repeats the name.
   */
  lemma ReportedIffHeldIff(sessions: seq<seq<ToolCall>>, name: Name)
    ensures (Reaches(sessions, name) <==> HeldByHalf(sessions, name)) <==>
            !(2 * Listings(sessions, name) >= |sessions| > 2 * Holders(sessions, name) > 0)
    ensures HeldByHalf(sessions, name) ==> Reaches(sessions, name)
    ensures NoneRepeats(sessions, name) ==> (Reaches(sessions, name) <==> HeldByHalf(sessions, name))
  {
    ListingsAreHoldersIff(sessions, name);
  }

  /** Repetitions count, so one session that lists a name often enough makes it common to all of them. */
  lemma OneSessionCanDecide(sessions: seq<seq<ToolCall>>, prefix: Name, i: nat, name: Name)
    requires i < |sessions| && StartsWith(name, prefix)
    requires 2 * Count(Indicators(sessions[i]), name) >= |sessions|
    ensures name in Common(Listed(sessions, prefix), |sessions|)
  {
    SumIsAtLeast(HeldBy(name), sessions, i);
    ListedCounts(sessions, prefix, name);
    CommonIsExact(Listed(sessions, prefix), |sessions|);
  }
}
