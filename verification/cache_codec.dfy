/**
 The tagged codec of cached views: Dates, Maps and Sets become tagged plain objects before JSON and are rebuilt
 after it.
 */
module CacheCodec {
  import opened Wrappers

  datatype Odd = NotANumber | Infinity | MinusInfinity | MinusZero

  /** The JavaScript values of a view. Objects list their own members, Maps and Sets their content, in order. */
  datatype Js =
    | Undefined
    | Null
    | Bool(b: bool)
    | Num(n: real)
    | OddNum(odd: Odd)
    | Str(s: string)
    | Arr(items: seq<Js>)
    | Obj(members: seq<Member>)
    | DateObj(iso: string)
    | MapObj(pairs: seq<Pair>)
    | SetObj(elems: seq<Js>)

  datatype Member = Member(key: string, value: Js)

  datatype Pair = Pair(key: Js, value: Js)

  const TAG := "__cacheType"
  const VALUE := "value"
  /** Assigning this key sets the prototype of the result and adds no member. */
  const PROTO := "__proto__"

  function Tagged(kind: string, value: Js): Js {
    Obj([Member(TAG, Str(kind)), Member(VALUE, value)])
  }

  // ----- prepareForCache -----

  /** No Date, Map or Set anywhere inside. */
  predicate Native(v: Js)
    decreases v
  {
    match v
    case Arr(items) => forall i | 0 <= i < |items| :: Native(items[i])
    case Obj(ms) => forall i | 0 <= i < |ms| :: Native(ms[i].value)
    case _ => !v.DateObj? && !v.MapObj? && !v.SetObj?
  }

  function Prepare(v: Js): (r: Js)
    ensures Native(r)
    decreases v, 1
  {
    match v
    case DateObj(iso) => Tagged("Date", Str(iso))
    case MapObj(pairs) => Tagged("Map", Arr(PreparePairs(pairs)))
    case SetObj(elems) => Tagged("Set", Arr(PrepareAll(elems)))
    case Arr(items) => Arr(PrepareAll(items))
    case Obj(members) => Obj(PrepareMembers(members))
    case _ => v
  }

  function PrepareAll(vs: seq<Js>): (r: seq<Js>)
    ensures |r| == |vs| && forall i :: 0 <= i < |r| ==> Native(r[i])
    decreases vs, 0
  {
    if vs == [] then [] else [Prepare(vs[0])] + PrepareAll(vs[1..])
  }

  function PreparePairs(ps: seq<Pair>): (r: seq<Js>)
    ensures |r| == |ps| && forall i :: 0 <= i < |r| ==> Native(r[i])
    decreases ps, 0
  {
    if ps == [] then [] else [PreparePair(ps[0])] + PreparePairs(ps[1..])
  }

  function PreparePair(p: Pair): (r: Js)
    ensures Native(r)
    decreases p, 1
  {
    Arr([Prepare(p.key), Prepare(p.value)])
  }

  function PrepareMembers(ms: seq<Member>): (r: seq<Member>)
    ensures |r| <= |ms| && forall i :: 0 <= i < |r| ==> Native(r[i].value)
    decreases ms, 0
  {
    if ms == [] then []
    else if ms[0].key == PROTO then PrepareMembers(ms[1..])
    else [Member(ms[0].key, Prepare(ms[0].value))] + PrepareMembers(ms[1..])
  }

  // ----- JSON.parse(JSON.stringify(_)) -----

  /**
   What is left of a value after JSON: no undefined members, null for what JSON cannot write, no Dates, Maps or Sets.
   */
  function Json(v: Js): Js
    decreases v, 1
  {
    match v
    case Undefined => Null
    case OddNum(odd) => if odd == MinusZero then Num(0.0) else Null
    case Arr(items) => Arr(JsonAll(items))
    case Obj(members) => Obj(JsonMembers(members))
    case DateObj(iso) => Str(iso)
    case MapObj(_) => Obj([])
    case SetObj(_) => Obj([])
    case _ => v
  }

  function JsonAll(vs: seq<Js>): (r: seq<Js>)
    ensures |r| == |vs|
    decreases vs, 0
  {
    if vs == [] then [] else [Json(vs[0])] + JsonAll(vs[1..])
  }

  function JsonMembers(ms: seq<Member>): (r: seq<Member>)
    ensures |r| <= |ms|
    decreases ms, 0
  {
    if ms == [] then []
    else if ms[0].value == Undefined then JsonMembers(ms[1..])
    else [Member(ms[0].key, Json(ms[0].value))] + JsonMembers(ms[1..])
  }

  // ----- reviveFromCache -----

  function Get(ms: seq<Member>, key: string): Option<Js> {
    if ms == [] then None else if ms[0].key == key then Some(ms[0].value) else Get(ms[1..], key)
  }

  predicate Shaped(ms: seq<Member>, kind: string) {
    Get(ms, TAG) == Some(Str(kind)) && Get(ms, VALUE).Some?
    && if kind == "Date" then Get(ms, VALUE).value.Str? else Get(ms, VALUE).value.Arr?
  }

  /** The objects that `reviveFromCache` takes for tagged values. */
  predicate TagShaped(ms: seq<Member>) {
    Shaped(ms, "Date") || Shaped(ms, "Map") || Shaped(ms, "Set")
  }

  lemma {:induction false} GetIff(ms: seq<Member>, key: string, value: Js)
    requires forall i, j | 0 <= i < j < |ms| :: ms[i].key != ms[j].key
    ensures Get(ms, key) == Some(value) <==> Member(key, value) in ms
  {
    if ms != [] {
      assert ms == [ms[0]] + ms[1..];
      GetIff(ms[1..], key, value);
      if ms[0].key == key {
        assert forall m | m in ms[1..] :: m.key != key;
      }
    }
  }

  /**
   The tag-shaped objects, spelled out: a kind under `__cacheType` and, under `value`, a text for a Date or a list.
   */
  lemma TagShapedIff(ms: seq<Member>)
    requires forall i, j | 0 <= i < j < |ms| :: ms[i].key != ms[j].key
    ensures TagShaped(ms) <==>
            || (Member("__cacheType", Str("Date")) in ms && exists s :: Member("value", Str(s)) in ms)
            || ((Member("__cacheType", Str("Map")) in ms || Member("__cacheType", Str("Set")) in ms)
                && exists items :: Member("value", Arr(items)) in ms)
  {
    GetIff(ms, "__cacheType", Str("Date"));
    GetIff(ms, "__cacheType", Str("Map"));
    GetIff(ms, "__cacheType", Str("Set"));
    forall s ensures Get(ms, "value") == Some(Str(s)) <==> Member("value", Str(s)) in ms {
      GetIff(ms, "value", Str(s));
    }
    forall items ensures Get(ms, "value") == Some(Arr(items)) <==> Member("value", Arr(items)) in ms {
      GetIff(ms, "value", Arr(items));
    }
  }

  /** The prepared forms of Dates, Maps and Sets are tag-shaped objects with those kinds. */
  lemma PreparedForms(iso: string, pairs: seq<Pair>, elems: seq<Js>)
    ensures Prepare(DateObj(iso)) == Obj([Member("__cacheType", Str("Date")), Member("value", Str(iso))])
    ensures Prepare(MapObj(pairs)).Obj? && Prepare(MapObj(pairs)).members[0] == Member("__cacheType", Str("Map"))
    ensures Prepare(SetObj(elems)).Obj? && Prepare(SetObj(elems)).members[0] == Member("__cacheType", Str("Set"))
    ensures |Prepare(MapObj(pairs)).members| == 2 == |Prepare(SetObj(elems)).members|
    ensures var m := Prepare(MapObj(pairs)).members[1]; m.key == "value" && m.value.Arr? && |m.value.items| == |pairs|
    ensures var m := Prepare(SetObj(elems)).members[1]; m.key == "value" && m.value.Arr? && |m.value.items| == |elems|
  {
  }

  predicate Primitive(v: Js) {
    !v.Arr? && !v.Obj? && !v.DateObj? && !v.MapObj? && !v.SetObj?
  }

  function IndexOf(ps: seq<Pair>, key: Js): Option<nat> {
    if ps == [] then None
    else if ps[|ps| - 1].key == key then Some(|ps| - 1)
    else IndexOf(ps[..|ps| - 1], key)
  }

  /** `new Map(list)`: an equal primitive key replaces the value of its first occurrence; objects are all distinct. */
  function MapOf(list: seq<Pair>): (r: seq<Pair>)
    ensures |r| <= |list|
  {
    if list == [] then []
    else
      var rest, last := MapOf(list[..|list| - 1]), list[|list| - 1];
      var at := IndexOf(rest, last.key);
      if Primitive(last.key) && at.Some? && at.value < |rest| then
        rest[at.value := Pair(rest[at.value].key, last.value)]
      else rest + [last]
  }

  /** `new Set(list)`. */
  function SetOf(list: seq<Js>): (r: seq<Js>)
    ensures |r| <= |list|
  {
    if list == [] then []
    else
      var rest, last := SetOf(list[..|list| - 1]), list[|list| - 1];
      if Primitive(last) && last in rest then rest else rest + [last]
  }

  function At(items: seq<Js>, i: nat): Js {
    if i < |items| then items[i] else Undefined
  }

  /** None is a thrown TypeError, from an entry of a tagged Map that cannot be destructured. */
  function Revive(v: Js): Option<Js>
    decreases v, 2
  {
    match v
    case Arr(items) => var r := ReviveAll(items); if r.Some? then Some(Arr(r.value)) else None
    case Obj(ms) =>
      if Shaped(ms, "Date") then Some(DateObj(Get(ms, VALUE).value.s))
      else if Shaped(ms, "Map") then
        GetIsSmaller(ms, VALUE);
        var r := RevivePairs(Get(ms, VALUE).value.items);
        if r.Some? then Some(MapObj(MapOf(r.value))) else None
      else if Shaped(ms, "Set") then
        GetIsSmaller(ms, VALUE);
        var r := ReviveAll(Get(ms, VALUE).value.items);
        if r.Some? then Some(SetObj(SetOf(r.value))) else None
      else
        var r := ReviveMembers(ms);
        if r.Some? then Some(Obj(r.value)) else None
    case _ => Some(v)
  }

  function ReviveAll(vs: seq<Js>): (r: Option<seq<Js>>)
    ensures r.Some? ==> |r.value| == |vs|
    decreases vs, 0
  {
    if vs == [] then Some([])
    else
      var head, tail := Revive(vs[0]), ReviveAll(vs[1..]);
      if head.Some? && tail.Some? then Some([head.value] + tail.value) else None
  }

  function RevivePairs(vs: seq<Js>): (r: Option<seq<Pair>>)
    ensures r.Some? ==> |r.value| == |vs|
    decreases vs, 0
  {
    if vs == [] then Some([])
    else
      var head, tail := RevivePair(vs[0]), RevivePairs(vs[1..]);
      if head.Some? && tail.Some? then Some([head.value] + tail.value) else None
  }

  function RevivePair(v: Js): Option<Pair>
    decreases v, 1
  {
    match v
    case Arr(items) =>
      var k := if 0 < |items| then Revive(items[0]) else Some(Undefined);
      var w := if 1 < |items| then Revive(items[1]) else Some(Undefined);
      if k.Some? && w.Some? then Some(Pair(k.value, w.value)) else None
    case Str(s) =>
      Some(Pair(if 0 < |s| then Str(s[..1]) else Undefined, if 1 < |s| then Str(s[1..2]) else Undefined))
    case _ => None
  }

  function ReviveMembers(ms: seq<Member>): (r: Option<seq<Member>>)
    ensures r.Some? ==> |r.value| <= |ms|
    decreases ms, 0
  {
    if ms == [] then Some([])
    else
      var head, tail := Revive(ms[0].value), ReviveMembers(ms[1..]);
      if head.None? || tail.None? then None
      else if ms[0].key == PROTO then tail
      else Some([Member(ms[0].key, head.value)] + tail.value)
  }

  lemma GetIsSmaller(ms: seq<Member>, key: string)
    ensures Get(ms, key).Some? ==> Get(ms, key).value < Obj(ms)
  {
    var i := 0;
    while i < |ms| && ms[i].key != key
      invariant i <= |ms| && Get(ms, key) == Get(ms[i..], key)
    {
      i := i + 1;
    }
    if i < |ms| {
      assert Get(ms[i..], key) == Some(ms[i].value);
      assert ms[i] in ms;
      assert ms[i] < Obj(ms);
    } else {
      assert ms[i..] == [];
    }
  }

  // ----- the round trip -----

  /** The whole way through the cache. */
  function Cached(v: Js): Option<Js> {
    Revive(Json(Prepare(v)))
  }

  predicate DistinctKeys(ms: seq<Member>) {
    forall i, j | 0 <= i < j < |ms| :: ms[i].key != ms[j].key
  }

  /** What every JavaScript value satisfies: object keys, and the primitive keys of a Map or Set, are distinct. */
  predicate WellFormed(v: Js)
    decreases v
  {
    match v
    case Arr(items) => forall i | 0 <= i < |items| :: WellFormed(items[i])
    case Obj(ms) => DistinctKeys(ms) && forall i | 0 <= i < |ms| :: WellFormed(ms[i].value)
    case MapObj(ps) =>
      && (forall i, j | 0 <= i < j < |ps| :: Primitive(ps[j].key) ==> ps[i].key != ps[j].key)
      && (forall i | 0 <= i < |ps| :: WellFormed(ps[i].key) && WellFormed(ps[i].value))
    case SetObj(elems) =>
      && (forall i, j | 0 <= i < j < |elems| :: Primitive(elems[j]) ==> elems[i] != elems[j])
      && (forall i | 0 <= i < |elems| :: WellFormed(elems[i]))
    case _ => true
  }

  /**
   No undefined and no number JSON cannot write, no member named `__proto__`, and no plain object shaped like a tag.
   */
  predicate Clean(v: Js)
    decreases v
  {
    match v
    case Undefined => false
    case OddNum(_) => false
    case Arr(items) => forall i | 0 <= i < |items| :: Clean(items[i])
    case Obj(ms) => !TagShaped(ms) && forall i | 0 <= i < |ms| :: ms[i].key != PROTO && Clean(ms[i].value)
    case MapObj(ps) => forall i | 0 <= i < |ps| :: Clean(ps[i].key) && Clean(ps[i].value)
    case SetObj(elems) => forall i | 0 <= i < |elems| :: Clean(elems[i])
    case _ => true
  }

  lemma TaggedThroughJson(kind: string, value: Js)
    requires value != Undefined
    ensures Json(Tagged(kind, value)) == Tagged(kind, Json(value))
    ensures Get(Tagged(kind, value).members, TAG) == Some(Str(kind))
            && Get(Tagged(kind, value).members, VALUE) == Some(value)
  {
    var ms := Tagged(kind, value).members;
    assert ms[1..] == [Member(VALUE, value)] && ms[1..][1..] == [];
    assert JsonMembers(ms[1..]) == [Member(VALUE, Json(value))];
    assert JsonMembers(ms) == [Member(TAG, Str(kind))] + JsonMembers(ms[1..]);
    assert |TAG| != |VALUE|;
    assert Get(ms, VALUE) == Get(ms[1..], VALUE) == Some(value);
  }

  /** Preparing and printing neither makes nor hides a tag. */
  lemma {:induction false} GetThroughCache(ms: seq<Member>, key: string)
    requires key != PROTO && DistinctKeys(ms)
    ensures
      var after := Get(JsonMembers(PrepareMembers(ms)), key);
      match Get(ms, key)
      case None => after.None?
      case Some(x) => after == if x == Undefined then None else Some(Json(Prepare(x)))
  {
    if ms != [] {
      var rest := ms[1..];
      assert forall i | 0 <= i < |rest| :: rest[i] == ms[i + 1];
      GetThroughCache(rest, key);
      var prepared := PrepareMembers(ms);
      if ms[0].key == PROTO {
        assert prepared == PrepareMembers(rest);
      } else {
        assert prepared[0] == Member(ms[0].key, Prepare(ms[0].value)) && prepared[1..] == PrepareMembers(rest);
        if ms[0].value == Undefined {
          assert JsonMembers(prepared) == JsonMembers(PrepareMembers(rest));
        } else {
          var printed := JsonMembers(prepared);
          assert printed[0] == Member(ms[0].key, Json(Prepare(ms[0].value)));
          assert printed[1..] == JsonMembers(PrepareMembers(rest));
        }
      }
      if ms[0].key == key {
        NotAgain(rest, key);
      }
    }
  }

  lemma {:induction false} NotAgain(ms: seq<Member>, key: string)
    requires forall i :: 0 <= i < |ms| ==> ms[i].key != key
    ensures Get(ms, key).None?
  {
    if ms != [] {
      NotAgain(ms[1..], key);
    }
  }

  lemma ShapeThroughCache(ms: seq<Member>, kind: string)
    requires DistinctKeys(ms)
    ensures Shaped(JsonMembers(PrepareMembers(ms)), kind) <==> Shaped(ms, kind)
  {
    GetThroughCache(ms, TAG);
    GetThroughCache(ms, VALUE);
    if Get(ms, TAG).Some? {
      KindThroughCache(Get(ms, TAG).value);
    }
    if Get(ms, VALUE).Some? {
      KindThroughCache(Get(ms, VALUE).value);
    }
  }

  lemma KindThroughCache(x: Js)
    ensures Json(Prepare(x)).Str? <==> x.Str?
    ensures x.Str? ==> Json(Prepare(x)) == x
    ensures Json(Prepare(x)).Arr? <==> x.Arr?
  {
  }

  lemma {:induction false} IndexOfFinds(ps: seq<Pair>, key: Js)
    ensures match IndexOf(ps, key)
            case None => forall i :: 0 <= i < |ps| ==> ps[i].key != key
            case Some(i) => i < |ps| && ps[i].key == key
  {
    if ps != [] && ps[|ps| - 1].key != key {
      IndexOfFinds(ps[..|ps| - 1], key);
    }
  }

  /** A Map built from a list keeps it exactly when nothing is merged. */
  lemma {:induction false} MapOfKeeps(list: seq<Pair>)
    ensures |MapOf(list)| == |list| ==> MapOf(list) == list
    ensures (forall i, j :: 0 <= i < j < |list| && Primitive(list[j].key) ==> list[i].key != list[j].key) ==>
            MapOf(list) == list
  {
    if list != [] {
      var front, last := list[..|list| - 1], list[|list| - 1];
      MapOfKeeps(front);
      IndexOfFinds(MapOf(front), last.key);
      assert front + [last] == list;
    }
  }

  lemma SameMap(list: seq<Pair>, ps: seq<Pair>)
    requires |list| == |ps|
    requires forall i, j :: 0 <= i < j < |ps| && Primitive(ps[j].key) ==> ps[i].key != ps[j].key
    ensures MapOf(list) == ps <==> list == ps
  {
    MapOfKeeps(list);
    MapOfKeeps(ps);
  }

  lemma {:induction false} SetOfKeeps(list: seq<Js>)
    ensures |SetOf(list)| == |list| ==> SetOf(list) == list
    ensures (forall i, j :: 0 <= i < j < |list| && Primitive(list[j]) ==> list[i] != list[j]) ==> SetOf(list) == list
  {
    if list != [] {
      var front, last := list[..|list| - 1], list[|list| - 1];
      SetOfKeeps(front);
      assert front + [last] == list;
    }
  }

  lemma {:induction false} AllRoundTrip(vs: seq<Js>)
    requires forall i :: 0 <= i < |vs| ==> WellFormed(vs[i])
    ensures ReviveAll(JsonAll(PrepareAll(vs))) == Some(vs) <==> forall i :: 0 <= i < |vs| ==> Clean(vs[i])
    decreases vs, 0
  {
    if vs != [] {
      var rest := vs[1..];
      RoundTripIffClean(vs[0]);
      AllRoundTrip(rest);
      assert PrepareAll(vs)[1..] == PrepareAll(rest);
      assert JsonAll(PrepareAll(vs))[1..] == JsonAll(PrepareAll(rest));
      assert vs == [vs[0]] + rest;
      assert (forall i :: 0 <= i < |vs| ==> Clean(vs[i])) <==>
             Clean(vs[0]) && forall i :: 0 <= i < |rest| ==> Clean(rest[i]);
    }
  }

  lemma HeadPairThroughCache(ps: seq<Pair>)
    requires ps != []
    ensures
      var head, rest := RevivePair(Json(PreparePair(ps[0]))), RevivePairs(JsonAll(PreparePairs(ps[1..])));
      RevivePairs(JsonAll(PreparePairs(ps))) ==
      if head.Some? && rest.Some? then Some([head.value] + rest.value) else None
  {
    assert PreparePairs(ps)[0] == PreparePair(ps[0]) && PreparePairs(ps)[1..] == PreparePairs(ps[1..]);
    assert JsonAll(PreparePairs(ps))[1..] == JsonAll(PreparePairs(ps[1..]));
  }

  lemma PairsSplit(ps: seq<Pair>)
    requires ps != []
    ensures RevivePairs(JsonAll(PreparePairs(ps))) == Some(ps) <==>
            && RevivePair(Json(PreparePair(ps[0]))) == Some(ps[0])
            && RevivePairs(JsonAll(PreparePairs(ps[1..]))) == Some(ps[1..])
  {
    HeadPairThroughCache(ps);
    PairsSplitAt(RevivePair(Json(PreparePair(ps[0]))), RevivePairs(JsonAll(PreparePairs(ps[1..]))), ps);
  }

  lemma PairsSplitAt(head: Option<Pair>, rest: Option<seq<Pair>>, ps: seq<Pair>)
    requires ps != []
    ensures (if head.Some? && rest.Some? then Some([head.value] + rest.value) else None) == Some(ps) <==>
            head == Some(ps[0]) && rest == Some(ps[1..])
  {
    assert ps == [ps[0]] + ps[1..];
    if head.Some? && rest.Some? {
      var all := [head.value] + rest.value;
      assert all[0] == head.value && all[1..] == rest.value;
    }
  }

  lemma {:induction false} PairsRoundTrip(ps: seq<Pair>)
    requires forall i :: 0 <= i < |ps| ==> WellFormed(ps[i].key) && WellFormed(ps[i].value)
    ensures RevivePairs(JsonAll(PreparePairs(ps))) == Some(ps) <==>
            forall i :: 0 <= i < |ps| ==> Clean(ps[i].key) && Clean(ps[i].value)
    decreases ps, 0
  {
    if ps != [] {
      var rest := ps[1..];
      PairRoundTrip(ps[0]);
      PairsRoundTrip(rest);
      PairsSplit(ps);
      assert forall i | 0 < i < |ps| :: ps[i] == rest[i - 1];
    }
  }

  lemma {:induction false} PairRoundTrip(p: Pair)
    requires WellFormed(p.key) && WellFormed(p.value)
    ensures RevivePair(Json(PreparePair(p))) == Some(p) <==> Clean(p.key) && Clean(p.value)
    decreases p, 1
  {
    RoundTripIffClean(p.key);
    RoundTripIffClean(p.value);
    var items := [Prepare(p.key), Prepare(p.value)];
    assert items[1..] == [Prepare(p.value)] && items[1..][1..] == [];
    assert JsonAll(items) == [Json(Prepare(p.key)), Json(Prepare(p.value))];
  }

  lemma JsonHead(m: Member, rest: seq<Member>)
    requires m.value != Undefined
    ensures JsonMembers([m] + rest) == [Member(m.key, Json(m.value))] + JsonMembers(rest)
  {
    assert ([m] + rest)[1..] == rest;
  }

  lemma JsonSkipsUndefined(m: Member, rest: seq<Member>)
    requires m.value == Undefined
    ensures JsonMembers([m] + rest) == JsonMembers(rest)
  {
    assert ([m] + rest)[1..] == rest;
  }

  lemma ReviveHead(m: Member, rest: seq<Member>)
    requires m.key != PROTO
    ensures var head, tail := Revive(m.value), ReviveMembers(rest);
            ReviveMembers([m] + rest) ==
            if head.Some? && tail.Some? then Some([Member(m.key, head.value)] + tail.value) else None
  {
    assert ([m] + rest)[1..] == rest;
  }

  /** What the cache makes of the first member: it is lost, or it stands before the rest. */
  lemma HeadThroughCache(ms: seq<Member>)
    requires ms != []
    ensures
      var rest := ReviveMembers(JsonMembers(PrepareMembers(ms[1..])));
      var all := ReviveMembers(JsonMembers(PrepareMembers(ms)));
      if ms[0].key == PROTO || ms[0].value == Undefined then all == rest
      else
        var head := Cached(ms[0].value);
        all == if head.Some? && rest.Some? then Some([Member(ms[0].key, head.value)] + rest.value) else None
  {
    var key, value, rest := ms[0].key, ms[0].value, PrepareMembers(ms[1..]);
    if key != PROTO {
      if value == Undefined {
        JsonSkipsUndefined(Member(key, Prepare(value)), rest);
      } else {
        PreparedIsDefined(value);
        JsonHead(Member(key, Prepare(value)), rest);
        ReviveHead(Member(key, Json(Prepare(value))), JsonMembers(rest));
      }
    }
  }

  lemma PreparedIsDefined(v: Js)
    ensures Prepare(v) == Undefined <==> v == Undefined
  {
  }

  /** All members come back exactly when the first is not lost, and it and the rest come back. */
  lemma MembersSplit(ms: seq<Member>)
    requires ms != []
    ensures ReviveMembers(JsonMembers(PrepareMembers(ms))) == Some(ms) <==>
            && ms[0].key != PROTO && ms[0].value != Undefined && Cached(ms[0].value) == Some(ms[0].value)
            && ReviveMembers(JsonMembers(PrepareMembers(ms[1..]))) == Some(ms[1..])
  {
    HeadThroughCache(ms);
    MembersSplitAt(ms, Cached(ms[0].value), ReviveMembers(JsonMembers(PrepareMembers(ms[1..]))));
  }

  lemma MembersSplitAt(ms: seq<Member>, head: Option<Js>, rest: Option<seq<Member>>)
    requires ms != []
    ensures Some(ms) == (if head.Some? && rest.Some? then Some([Member(ms[0].key, head.value)] + rest.value) else None)
            <==>
            head == Some(ms[0].value) && rest == Some(ms[1..])
  {
    assert ms == [ms[0]] + ms[1..];
    if head.Some? && rest.Some? {
      var all := [Member(ms[0].key, head.value)] + rest.value;
      assert all[0].value == head.value && all[1..] == rest.value;
    }
  }

  lemma {:induction false} MembersRoundTrip(ms: seq<Member>)
    requires forall i :: 0 <= i < |ms| ==> WellFormed(ms[i].value)
    ensures ReviveMembers(JsonMembers(PrepareMembers(ms))) == Some(ms) <==>
            forall i :: 0 <= i < |ms| ==> ms[i].key != PROTO && Clean(ms[i].value)
    decreases ms, 0
  {
    if ms != [] {
      var rest := ms[1..];
      RoundTripIffClean(ms[0].value);
      MembersRoundTrip(rest);
      MembersSplit(ms);
      assert forall i | 0 < i < |ms| :: ms[i] == rest[i - 1];
    }
  }

  lemma {:induction false} ObjRoundTrip(ms: seq<Member>)
    requires WellFormed(Obj(ms))
    ensures Cached(Obj(ms)) == Some(Obj(ms)) <==> Clean(Obj(ms))
    decreases ms, 1
  {
    MembersRoundTrip(ms);
    ShapeThroughCache(ms, "Date");
    ShapeThroughCache(ms, "Map");
    ShapeThroughCache(ms, "Set");
  }

  /** The tagged array of a Map or a Set is found again as it was written. */
  lemma TaggedArray(kind: string, items: seq<Js>)
    ensures
      var ms := Tagged(kind, Arr(JsonAll(items))).members;
      && Json(Tagged(kind, Arr(items))) == Obj(ms)
      && Get(ms, TAG) == Some(Str(kind)) && Get(ms, VALUE) == Some(Arr(JsonAll(items)))
  {
    TaggedThroughJson(kind, Arr(items));
    TaggedThroughJson(kind, Arr(JsonAll(items)));
  }

  lemma MapThroughCache(ps: seq<Pair>)
    ensures
      var r := RevivePairs(JsonAll(PreparePairs(ps)));
      Cached(MapObj(ps)) == if r.Some? then Some(MapObj(MapOf(r.value))) else None
  {
    TaggedArray("Map", PreparePairs(ps));
    assert "Map" != "Date";
  }

  lemma SetThroughCache(elems: seq<Js>)
    ensures
      var r := ReviveAll(JsonAll(PrepareAll(elems)));
      Cached(SetObj(elems)) == if r.Some? then Some(SetObj(SetOf(r.value))) else None
  {
    TaggedArray("Set", PrepareAll(elems));
    assert "Set" != "Date" && "Set" != "Map";
  }

  lemma {:induction false} MapRoundTrip(ps: seq<Pair>)
    requires WellFormed(MapObj(ps))
    ensures Cached(MapObj(ps)) == Some(MapObj(ps)) <==> Clean(MapObj(ps))
    decreases ps, 1
  {
    PairsRoundTrip(ps);
    MapIsItsPairs(ps);
  }

  /** A Map comes back unchanged exactly when its list of pairs does. */
  lemma MapIsItsPairs(ps: seq<Pair>)
    requires forall i, j :: 0 <= i < j < |ps| && Primitive(ps[j].key) ==> ps[i].key != ps[j].key
    ensures Cached(MapObj(ps)) == Some(MapObj(ps)) <==> RevivePairs(JsonAll(PreparePairs(ps))) == Some(ps)
  {
    MapThroughCache(ps);
    PreparePairsKeepsLength(ps);
    var r := RevivePairs(JsonAll(PreparePairs(ps)));
    if r.Some? {
      SameMap(r.value, ps);
    }
  }

  lemma PreparePairsKeepsLength(ps: seq<Pair>)
    ensures |JsonAll(PreparePairs(ps))| == |ps|
  {
  }

  lemma {:induction false} SetRoundTrip(elems: seq<Js>)
    requires WellFormed(SetObj(elems))
    ensures Cached(SetObj(elems)) == Some(SetObj(elems)) <==> Clean(SetObj(elems))
    decreases elems, 1
  {
    SetThroughCache(elems);
    AllRoundTrip(elems);
    var r := ReviveAll(JsonAll(PrepareAll(elems)));
    if r.Some? {
      SetOfKeeps(r.value);
      SetOfKeeps(elems);
    }
  }

  /** A value comes back from the cache unchanged if and only if it is clean, at every level. */
  lemma {:induction false} RoundTripIffClean(v: Js)
    requires WellFormed(v)
    ensures Cached(v) == Some(v) <==> Clean(v)
    decreases v, 2
  {
    match v
    case Arr(items) => AllRoundTrip(items);
    case Obj(ms) => ObjRoundTrip(ms);
    case DateObj(iso) => TaggedThroughJson("Date", Str(iso));
    case MapObj(ps) => MapRoundTrip(ps);
    case SetObj(elems) => SetRoundTrip(elems);
    case _ =>
  }
}
