/**
 The shape limits on journaled requests: one bottom-up pass that measures a JSON value while it checks it,
 and the text it measures (RFC 8259, as `JSON.stringify` writes it, in UTF-8).
 */
module RequestShape {
  import opened Wrappers

  /** A UTF-16 code unit. */
  type Unit = u: int | 0 <= u < 0x1_0000

  type Byte = b: int | 0 <= b < 256

  datatype Json =
    | Null
    | Bool(b: bool)
    | Number(text: seq<Byte>)
    | Text(units: seq<Unit>)
    | Array(items: seq<Json>)
    | Object(members: seq<Member>)

  datatype Member = Member(key: seq<Unit>, value: Json)

  predicate IsHigh(u: Unit) {
    0xD800 <= u < 0xDC00
  }

  predicate IsLow(u: Unit) {
    0xDC00 <= u < 0xE000
  }

  predicate StartsPair(units: seq<Unit>) {
    |units| >= 2 && IsHigh(units[0]) && IsLow(units[1])
  }

  /** `isStorableString`: no NUL and no lone surrogate. */
  predicate Storable(units: seq<Unit>) {
    if units == [] then true
    else if StartsPair(units) then Storable(units[2..])
    else units[0] != 0 && !IsHigh(units[0]) && !IsLow(units[0]) && Storable(units[1..])
  }

  /** Every high surrogate is followed by a low one, and every low one follows a high one. */
  predicate IsPaired(units: seq<Unit>, i: nat)
    requires i < |units|
  {
    && (0xD800 <= units[i] <= 0xDBFF ==> i + 1 < |units| && 0xDC00 <= units[i + 1] <= 0xDFFF)
    && (0xDC00 <= units[i] <= 0xDFFF ==> i > 0 && 0xD800 <= units[i - 1] <= 0xDBFF)
  }

  lemma {:induction false} StorableIff(units: seq<Unit>)
    ensures Storable(units) <==> forall i | 0 <= i < |units| :: units[i] != 0 && IsPaired(units, i)
  {
    if units != [] {
      var n := if StartsPair(units) then 2 else 1;
      StorableIff(units[n..]);
      assert forall i | n <= i < |units| :: units[i] == units[n..][i - n];
      if Storable(units) {
        forall i | 0 <= i < |units| ensures units[i] != 0 && IsPaired(units, i) {
          if i >= n {
            assert IsPaired(units[n..], i - n);
          }
        }
      } else if forall i | 0 <= i < |units| :: units[i] != 0 && IsPaired(units, i) {
        assert IsPaired(units, 0);
        forall i | 0 <= i < |units| - n ensures units[n..][i] != 0 && IsPaired(units[n..], i) {
          assert IsPaired(units, i + n) && units[i + n] != 0;
          if i == 0 && n == 1 { assert !IsHigh(units[0]); }
        }
      }
    }
  }

  // ----- the printed text -----

  function Hex(d: int): Byte
    requires 0 <= d < 16
  {
    if d < 10 then 0x30 + d else 0x57 + d
  }

  function Escape(u: Unit): seq<Byte> {
    [0x5C, 0x75, Hex(u / 0x1000), Hex(u / 0x100 % 16), Hex(u / 16 % 16), Hex(u % 16)]
  }

  /** One code unit outside a surrogate pair. */
  function PrintUnit(u: Unit): seq<Byte> {
    if u == 0x22 then [0x5C, 0x22]
    else if u == 0x5C then [0x5C, 0x5C]
    else if u == 0x08 then [0x5C, 0x62]
    else if u == 0x09 then [0x5C, 0x74]
    else if u == 0x0A then [0x5C, 0x6E]
    else if u == 0x0C then [0x5C, 0x66]
    else if u == 0x0D then [0x5C, 0x72]
    else if u < 0x20 || IsHigh(u) || IsLow(u) then Escape(u)
    else if u < 0x80 then [u]
    else if u < 0x800 then [0xC0 + u / 64, 0x80 + u % 64]
    else [0xE0 + u / 4096, 0x80 + u / 64 % 64, 0x80 + u % 64]
  }

  function PrintPair(high: Unit, low: Unit): seq<Byte>
    requires IsHigh(high) && IsLow(low)
  {
    var c := 0x1_0000 + (high - 0xD800) * 0x400 + (low - 0xDC00);
    [0xF0 + c / 0x4_0000, 0x80 + c / 4096 % 64, 0x80 + c / 64 % 64, 0x80 + c % 64]
  }

  function PrintUnits(units: seq<Unit>): seq<Byte> {
    if units == [] then []
    else if StartsPair(units) then PrintPair(units[0], units[1]) + PrintUnits(units[2..])
    else PrintUnit(units[0]) + PrintUnits(units[1..])
  }

  function PrintText(units: seq<Unit>): seq<Byte> {
    [0x22] + PrintUnits(units) + [0x22]
  }

  /** The compact text of a value. */
  function Print(v: Json): seq<Byte>
    decreases v, 1
  {
    match v
    case Null => [0x6E, 0x75, 0x6C, 0x6C]
    case Bool(b) => if b then [0x74, 0x72, 0x75, 0x65] else [0x66, 0x61, 0x6C, 0x73, 0x65]
    case Number(text) => text
    case Text(units) => PrintText(units)
    case Array(items) => [0x5B] + PrintItems(items) + [0x5D]
    case Object(members) => [0x7B] + PrintMembers(members) + [0x7D]
  }

  function PrintItems(items: seq<Json>): seq<Byte>
    decreases items, 0
  {
    if items == [] then []
    else if |items| == 1 then Print(items[0])
    else Print(items[0]) + [0x2C] + PrintItems(items[1..])
  }

  function PrintMember(m: Member): seq<Byte>
    decreases m, 1
  {
    PrintText(m.key) + [0x3A] + Print(m.value)
  }

  function PrintMembers(members: seq<Member>): seq<Byte>
    decreases members, 0
  {
    if members == [] then []
    else if |members| == 1 then PrintMember(members[0])
    else PrintMember(members[0]) + [0x2C] + PrintMembers(members[1..])
  }

  function Max(a: nat, b: nat): nat {
    if a < b then b else a
  }

  /** Printed sizes of the first `n` items, as the loop adds them up. */
  function ItemBytes(items: seq<Json>, n: nat): nat
    requires n <= |items|
  {
    if n == 0 then 0 else ItemBytes(items, n - 1) + |Print(items[n - 1])|
  }

  function MemberBytes(members: seq<Member>, n: nat): nat
    requires n <= |members|
  {
    if n == 0 then 0 else MemberBytes(members, n - 1) + |PrintMember(members[n - 1])|
  }

  lemma {:induction false} ItemBytesShift(items: seq<Json>, n: nat)
    requires 1 <= n <= |items|
    ensures ItemBytes(items, n) == |Print(items[0])| + ItemBytes(items[1..], n - 1)
  {
    if n > 1 {
      ItemBytesShift(items, n - 1);
    }
  }

  lemma {:induction false} ItemsSize(items: seq<Json>)
    ensures |Print(Array(items))| == Max(|items|, 1) + 1 + ItemBytes(items, |items|)
  {
    if |items| >= 1 {
      ItemBytesShift(items, |items|);
      if |items| > 1 {
        ItemsSize(items[1..]);
      }
    }
  }

  lemma {:induction false} MemberBytesShift(members: seq<Member>, n: nat)
    requires 1 <= n <= |members|
    ensures MemberBytes(members, n) == |PrintMember(members[0])| + MemberBytes(members[1..], n - 1)
  {
    if n > 1 {
      MemberBytesShift(members, n - 1);
    }
  }

  lemma {:induction false} MembersSize(members: seq<Member>)
    ensures |Print(Object(members))| == Max(|members|, 1) + 1 + MemberBytes(members, |members|)
  {
    if |members| >= 1 {
      MemberBytesShift(members, |members|);
      if |members| > 1 {
        MembersSize(members[1..]);
      }
    }
  }

  // ----- the limits -----

  const MAX_DEPTH: nat := 32
  const MAX_ENTRIES: nat := 1000
  const MAX_KEY: nat := 255
  const MAX_MEMBER_BYTES: nat := 65_536
  const MAX_TOTAL_BYTES: nat := 1_048_576

  predicate MemberOk(m: Member) {
    1 <= |m.key| <= MAX_KEY && Storable(m.key) && |Print(m.value)| <= MAX_MEMBER_BYTES
  }

  /** The limits one node has by itself. */
  predicate NodeOk(v: Json) {
    match v
    case Text(units) => Storable(units)
    case Array(items) => |items| <= MAX_ENTRIES
    case Object(members) => |members| <= MAX_ENTRIES && forall i | 0 <= i < |members| :: MemberOk(members[i])
    case _ => true
  }

  /** The node reached from `v` by taking the given item or member at each level. */
  function At(v: Json, path: seq<nat>): Option<Json>
    decreases |path|
  {
    if path == [] then Some(v)
    else match v
      case Array(items) => if path[0] < |items| then At(items[path[0]], path[1..]) else None
      case Object(members) => if path[0] < |members| then At(members[path[0]].value, path[1..]) else None
      case _ => None
  }

  /**
   What the design asks of a node: storable strings, at most 1000 entries, names of 1 to 255 units, 64 KiB a member.
   */
  predicate NodeFits(v: Json) {
    && (v.Text? ==> Storable(v.units))
    && (v.Array? ==> |v.items| <= 1000)
    && (v.Object? ==>
          && |v.members| <= 1000
          && forall i | 0 <= i < |v.members| ::
               && 1 <= |v.members[i].key| <= 255 && Storable(v.members[i].key)
               && |Print(v.members[i].value)| <= 65_536)
  }

  /** Every node, wherever it sits, fits and lies no deeper than 32 levels below `depth`. */
  ghost predicate NodesOk(v: Json, depth: nat) {
    forall path :: At(v, path).Some? ==> depth + |path| <= 32 && NodeFits(At(v, path).value)
  }

  /** The request limits of the design, independent of how they are checked. */
  ghost predicate WithinLimits(v: Json) {
    NodesOk(v, 0) && |Print(v)| <= 1_048_576
  }

  function Children(v: Json): (r: seq<Json>)
    ensures forall c :: c in r ==> c < v
  {
    match v
    case Array(items) => items
    case Object(members) => seq(|members|, i requires 0 <= i < |members| => members[i].value)
    case _ => []
  }

  /** The limits checked from the top down. */
  predicate ShapeOk(v: Json, depth: nat)
    decreases v
  {
    && depth <= MAX_DEPTH && NodeOk(v)
    && match v
       case Array(items) => forall i | 0 <= i < |items| :: ShapeOk(items[i], depth + 1)
       case Object(members) => forall i | 0 <= i < |members| :: ShapeOk(members[i].value, depth + 1)
       case _ => true
  }

  lemma {:induction false} ShapeReachesNodes(v: Json, depth: nat, path: seq<nat>)
    requires ShapeOk(v, depth) && At(v, path).Some?
    ensures depth + |path| <= 32 && NodeFits(At(v, path).value)
    decreases |path|
  {
    if path != [] {
      ShapeReachesNodes(Children(v)[path[0]], depth + 1, path[1..]);
    }
  }

  lemma {:induction false} ShapeFailsAtNode(v: Json, depth: nat) returns (path: seq<nat>)
    requires !ShapeOk(v, depth)
    ensures At(v, path).Some? && (depth + |path| > 32 || !NodeFits(At(v, path).value))
    decreases v
  {
    path := [];
    if depth <= MAX_DEPTH && NodeOk(v) {
      var children := Children(v);
      var i :| 0 <= i < |children| && !ShapeOk(children[i], depth + 1);
      var rest := ShapeFailsAtNode(children[i], depth + 1);
      path := [i] + rest;
      assert path[1..] == rest && At(v, path) == At(children[i], rest);
    }
  }

  /** The recursive check and the limits on all nodes are the same. */
  lemma ShapeIffNodes(v: Json, depth: nat)
    ensures ShapeOk(v, depth) <==> NodesOk(v, depth)
  {
    if ShapeOk(v, depth) {
      forall path | At(v, path).Some? ensures depth + |path| <= 32 && NodeFits(At(v, path).value) {
        ShapeReachesNodes(v, depth, path);
      }
    } else {
      var path := ShapeFailsAtNode(v, depth);
      assert At(v, path).Some?;
    }
  }

  /** The `reduce` over the items of an array. */
  method SizeOfItems(items: seq<Json>, depth: nat) returns (size: Option<nat>)
    requires depth <= MAX_DEPTH
    ensures size.Some? <==> forall i :: 0 <= i < |items| ==> ShapeOk(items[i], depth + 1)
    ensures size.Some? ==> size.value == Max(|items|, 1) + 1 + ItemBytes(items, |items|)
    decreases items, 0
  {
    var total := Max(|items|, 1) + 1;
    var i := 0;
    while i < |items|
      invariant 0 <= i <= |items|
      invariant total == Max(|items|, 1) + 1 + ItemBytes(items, i)
      invariant forall j :: 0 <= j < i ==> ShapeOk(items[j], depth + 1)
    {
      var bytes := AssertRequestShape(items[i], depth + 1);
      if bytes.None? {
        return None;
      }
      total := total + bytes.value;
      i := i + 1;
    }
    size := Some(total);
  }

  predicate MemberFits(m: Member, depth: nat) {
    MemberOk(m) && ShapeOk(m.value, depth + 1)
  }

  /** The first `n` members fit. */
  predicate AllFit(members: seq<Member>, n: nat, depth: nat)
    requires n <= |members|
  {
    n == 0 || (AllFit(members, n - 1, depth) && MemberFits(members[n - 1], depth))
  }

  lemma {:induction false} AllFitIff(members: seq<Member>, n: nat, depth: nat)
    requires n <= |members|
    ensures AllFit(members, n, depth) <==> forall i :: 0 <= i < n ==> MemberFits(members[i], depth)
  {
    if n > 0 {
      AllFitIff(members, n - 1, depth);
    }
  }

  lemma {:induction false} AllFitShrinks(members: seq<Member>, m: nat, n: nat, depth: nat)
    requires m <= n <= |members| && AllFit(members, n, depth)
    ensures AllFit(members, m, depth)
  {
    if m < n {
      AllFitShrinks(members, m, n - 1, depth);
    }
  }

  /** One turn of the loop over the members of an object: a member with its colon. */
  method SizeOfMember(m: Member, depth: nat) returns (size: Option<nat>)
    requires depth <= MAX_DEPTH
    ensures size.Some? <==> MemberFits(m, depth)
    ensures size.Some? ==> size.value == |PrintMember(m)|
    decreases m, 2
  {
    if |m.key| < 1 || |m.key| > MAX_KEY || !Storable(m.key) {
      return None;
    }
    var bytes := AssertRequestShape(m.value, depth + 1);
    if bytes.None? || bytes.value > MAX_MEMBER_BYTES {
      return None;
    }
    size := Some(|PrintText(m.key)| + 1 + bytes.value);
  }

  /** The loop over the members of an object. */
  method SizeOfMembers(members: seq<Member>, depth: nat) returns (size: Option<nat>)
    requires depth <= MAX_DEPTH
    ensures size.Some? <==> AllFit(members, |members|, depth)
    ensures size.Some? ==> size.value == Max(|members|, 1) + 1 + MemberBytes(members, |members|)
    decreases members, 0
  {
    var total := Max(|members|, 1) + 1;
    var i := 0;
    while i < |members|
      invariant 0 <= i <= |members|
      invariant total == Max(|members|, 1) + 1 + MemberBytes(members, i)
      invariant AllFit(members, i, depth)
    {
      var bytes := SizeOfMember(members[i], depth);
      if bytes.None? {
        if AllFit(members, |members|, depth) { AllFitShrinks(members, i + 1, |members|, depth); }
        return None;
      }
      total := total + bytes.value;
      i := i + 1;
    }
    size := Some(total);
  }

  /**
   `assertRequestShape`: None is the thrown error. The returned number is exactly the size of the compact text, and
   the value is accepted exactly when all its nodes respect the limits.
   */
  method AssertRequestShape(v: Json, depth: nat) returns (size: Option<nat>)
    ensures size.Some? <==> ShapeOk(v, depth) && (depth == 0 ==> |Print(v)| <= MAX_TOTAL_BYTES)
    ensures size.Some? ==> size.value == |Print(v)|
    decreases v, 1
  {
    if depth > MAX_DEPTH {
      return None;
    }
    match v {
      case Text(units) =>
        size := if Storable(units) then Some(|PrintText(units)|) else None;
      case Array(items) =>
        ItemsSize(items);
        if |items| > MAX_ENTRIES {
          return None;
        }
        size := SizeOfItems(items, depth);
      case Object(members) =>
        MembersSize(members);
        if |members| > MAX_ENTRIES {
          return None;
        }
        size := SizeOfMembers(members, depth);
        AllFitIff(members, |members|, depth);
      case _ =>
        size := Some(|Print(v)|);
    }
    if size.Some? && depth == 0 && size.value > MAX_TOTAL_BYTES {
      size := None;
    }
  }

  /** The guard's call accepts exactly the requests within the limits and reports their size in bytes. */
  method CheckRequest(v: Json) returns (size: Option<nat>)
    ensures size == if WithinLimits(v) then Some(|Print(v)|) else None
  {
    ShapeIffNodes(v, 0);
    size := AssertRequestShape(v, 0);
  }

  // ----- reserved names -----

  function LowerUnit(u: Unit): Unit {
    if 0x41 <= u <= 0x5A then u + 0x20 else u
  }

  /** Without leading underscores, in lower case. */
  function Norm(key: seq<Unit>): seq<Unit> {
    if key != [] && key[0] == 0x5F then Norm(key[1..]) else LowerAll(key)
  }

  function LowerAll(key: seq<Unit>): seq<Unit> {
    if key == [] then [] else [LowerUnit(key[0])] + LowerAll(key[1..])
  }

  /** An ASCII text as code units. */
  function Ascii(s: string): seq<Unit> {
    seq(|s|, i requires 0 <= i < |s| => if s[i] < '\U{80}' then s[i] as int else 0)
  }

  /** The names a client may not set. */
  function Reserved(): set<seq<Unit>> {
    {Ascii("id"), Ascii("organization_id"), Ascii("organizationid"), Ascii("op_id"), Ascii("reconciliation_op_id")}
  }

  /** `a` is `b`, or differs from it only in capital letters. */
  predicate IsInCapitals(a: seq<Unit>, b: seq<Unit>) {
    |a| == |b| && forall i | 0 <= i < |a| :: if 0x41 <= a[i] <= 0x5A then b[i] == a[i] + 32 else b[i] == a[i]
  }

  /** The first `n` units are underscores, and the next is not. */
  predicate Underscores(key: seq<Unit>, n: int) {
    0 <= n <= |key| && (forall i | 0 <= i < n :: key[i] == 0x5F) && (n < |key| ==> key[n] != 0x5F)
  }

  lemma {:induction false} LowerAllIff(key: seq<Unit>, name: seq<Unit>)
    ensures LowerAll(key) == name <==> IsInCapitals(key, name)
  {
    if key == [] || name == [] {
    } else {
      LowerAllIff(key[1..], name[1..]);
      assert name == [name[0]] + name[1..];
      assert LowerAll(key) == name <==> LowerUnit(key[0]) == name[0] && LowerAll(key[1..]) == name[1..] by {
        assert LowerAll(key)[0] == LowerUnit(key[0]) && LowerAll(key)[1..] == LowerAll(key[1..]);
      }
      CapitalsSplit(key, name);
    }
  }

  lemma CapitalsSplit(key: seq<Unit>, name: seq<Unit>)
    requires key != [] && name != []
    ensures IsInCapitals(key, name) <==> LowerUnit(key[0]) == name[0] && IsInCapitals(key[1..], name[1..])
  {
    if LowerUnit(key[0]) == name[0] && IsInCapitals(key[1..], name[1..]) {
      forall i | 0 <= i < |key|
        ensures if 0x41 <= key[i] <= 0x5A then name[i] == key[i] + 32 else name[i] == key[i]
      {
        assert i > 0 ==> key[i] == key[1..][i - 1] && name[i] == name[1..][i - 1];
      }
    }
  }

  /** The normalised name: what is left behind all leading underscores, in lower case. */
  lemma {:induction false} NormIff(key: seq<Unit>, name: seq<Unit>)
    ensures Norm(key) == name <==> exists n :: Underscores(key, n) && IsInCapitals(key[n..], name)
  {
    if key != [] && key[0] == 0x5F {
      NormIff(key[1..], name);
      if n :| Underscores(key, n) && IsInCapitals(key[n..], name) {
        assert n > 0 && key[n..] == key[1..][n - 1..];
        assert Underscores(key[1..], n - 1);
      }
      if n :| Underscores(key[1..], n) && IsInCapitals(key[1..][n..], name) {
        assert key[n + 1..] == key[1..][n..];
        assert forall i | 1 <= i < |key| :: key[i] == key[1..][i - 1];
        assert Underscores(key, n + 1);
      }
    } else {
      LowerAllIff(key, name);
      assert Underscores(key, 0) && key[0..] == key;
      assert forall n :: Underscores(key, n) ==> n == 0;
    }
  }

  /** `isReservedKey`: one of five names, behind any number of underscores and in any case. */
  lemma ReservedIff(key: seq<Unit>)
    ensures Norm(key) in Reserved() <==>
            exists n, name | name in Reserved() :: Underscores(key, n) && IsInCapitals(key[n..], name)
  {
    forall name | name in Reserved()
      ensures Norm(key) == name <==> exists n :: Underscores(key, n) && IsInCapitals(key[n..], name)
    {
      NormIff(key, name);
    }
  }

  /** A member of an object at any depth whose normalised name is reserved. */
  ghost predicate HasReserved(v: Json, reserved: set<seq<Unit>>) {
    exists path :: At(v, path).Some? && At(v, path).value.Object? && NamesReserved(At(v, path).value.members, reserved)
  }

  predicate NamesReserved(members: seq<Member>, reserved: set<seq<Unit>>) {
    exists i | 0 <= i < |members| :: Norm(members[i].key) in reserved
  }

  lemma HasReservedByChildren(v: Json, reserved: set<seq<Unit>>)
    ensures HasReserved(v, reserved) <==>
            || (v.Object? && NamesReserved(v.members, reserved))
            || exists i :: 0 <= i < |Children(v)| && HasReserved(Children(v)[i], reserved)
  {
    var children := Children(v);
    assert At(v, []) == Some(v);
    if HasReserved(v, reserved) {
      var path :| At(v, path).Some? && At(v, path).value.Object? && NamesReserved(At(v, path).value.members, reserved);
      if path != [] {
        assert At(v, path) == At(children[path[0]], path[1..]);
        assert HasReserved(children[path[0]], reserved);
      }
    }
    forall i | 0 <= i < |children| && HasReserved(children[i], reserved) ensures HasReserved(v, reserved) {
      var path :| At(children[i], path).Some? && At(children[i], path).value.Object?
                  && NamesReserved(At(children[i], path).value.members, reserved);
      assert ([i] + path)[1..] == path;
      assert At(v, [i] + path) == At(children[i], path);
    }
  }

  /** `assertNoReservedMembers` refuses exactly the values with a reserved member name somewhere inside. */
  method NoReservedMembers(v: Json, reserved: set<seq<Unit>>) returns (ok: bool)
    ensures ok <==> !HasReserved(v, reserved)
  {
    HasReservedByChildren(v, reserved);
    var children := Children(v);
    var i := 0;
    while i < |children|
      invariant 0 <= i <= |children|
      invariant forall j :: 0 <= j < i ==> !HasReserved(children[j], reserved)
      invariant v.Object? ==> forall j :: 0 <= j < i ==> Norm(v.members[j].key) !in reserved
    {
      if v.Object? && Norm(v.members[i].key) in reserved {
        return false;
      }
      ok := NoReservedMembers(children[i], reserved);
      if !ok {
        return false;
      }
      i := i + 1;
    }
    ok := true;
  }
}
