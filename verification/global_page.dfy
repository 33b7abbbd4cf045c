/** The platform-wide reads: the chunked filters over gaps and ownership, and the complete-or-refused page loop. */
module GlobalPage {
  import opened Wrappers
  import opened Sequences

  /** A JavaScript value in a row: a string, or anything else with the text a template literal gives it. */
  datatype Value = Text(text: string) | Other(text: string)

  datatype Row = Row(id: Value, org: Value)

  predicate IsHex(c: char) {
    '0' <= c <= '9' || 'a' <= c <= 'f' || 'A' <= c <= 'F'
  }

  predicate IsUuid(s: string) {
    |s| == 36 && forall i | 0 <= i < 36 :: if i == 8 || i == 13 || i == 18 || i == 23 then s[i] == '-' else IsHex(s[i])
  }

  function LowerChar(c: char): char {
    if 'A' <= c <= 'Z' then ((c as int) + 32) as char else c
  }

  function Lower(s: string): string {
    seq(|s|, i requires 0 <= i < |s| => LowerChar(s[i]))
  }

  /** The same text but for the case of ASCII letters. */
  predicate SameLetters(a: string, b: string) {
    |a| == |b| && forall i | 0 <= i < |a| ::
      || a[i] == b[i]
      || ('A' <= a[i] <= 'Z' && b[i] as int == a[i] as int + 32)
      || ('A' <= b[i] <= 'Z' && a[i] as int == b[i] as int + 32)
  }

  lemma LowerIff(a: string, b: string)
    ensures Lower(a) == Lower(b) <==> SameLetters(a, b)
    ensures forall c | c in Lower(a) :: !('A' <= c <= 'Z')
  {
    if Lower(a) == Lower(b) {
      assert |a| == |Lower(a)| == |Lower(b)| == |b|;
      forall i | 0 <= i < |a|
        ensures || a[i] == b[i]
                || ('A' <= a[i] <= 'Z' && b[i] as int == a[i] as int + 32)
                || ('A' <= b[i] <= 'Z' && a[i] as int == b[i] as int + 32)
      {
        assert Lower(a)[i] == LowerChar(a[i]) && Lower(b)[i] == LowerChar(b[i]);
        LetterIff(a[i], b[i]);
      }
    } else if SameLetters(a, b) {
      forall i | 0 <= i < |a| ensures Lower(a)[i] == Lower(b)[i] {
        LetterIff(a[i], b[i]);
      }
    }
  }

  lemma LetterIff(c: char, d: char)
    ensures LowerChar(c) == LowerChar(d) <==>
            || c == d
            || ('A' <= c <= 'Z' && d as int == c as int + 32)
            || ('A' <= d <= 'Z' && c as int == d as int + 32)
  {
    assert (LowerChar(c) as int) == (if 'A' <= c <= 'Z' then c as int + 32 else c as int);
    assert (LowerChar(d) as int) == (if 'A' <= d <= 'Z' then d as int + 32 else d as int);
  }

  predicate AllHex(s: string) {
    forall c | c in s :: '0' <= c <= '9' || 'a' <= c <= 'f' || 'A' <= c <= 'F'
  }

  /** A UUID is five groups of hexadecimal digits, 8-4-4-4-12. */
  lemma UuidIff(s: string)
    ensures IsUuid(s) <==>
            && |s| == 36 && s[8] == s[13] == s[18] == s[23] == '-'
            && AllHex(s[..8] + s[9..13] + s[14..18] + s[19..23] + s[24..])
  {
    if |s| == 36 {
      var digits := s[..8] + s[9..13] + s[14..18] + s[19..23] + s[24..];
      assert forall i | 0 <= i < 8 :: s[i] == digits[i];
      assert forall i | 9 <= i < 13 :: s[i] == digits[i - 1];
      assert forall i | 14 <= i < 18 :: s[i] == digits[i - 2];
      assert forall i | 19 <= i < 23 :: s[i] == digits[i - 3];
      assert forall i | 24 <= i < 36 :: s[i] == digits[i - 4];
      assert forall i | 0 <= i < 32 :: digits[i] in digits;
    }
  }

  // ----- gaps -----

  /** The pairs the journal query is asked about: both members strings, the organization a UUID. */
  predicate Asked(r: Row) {
    r.id.Text? && r.org.Text? && IsUuid(r.org.text)
  }

  /** The row names a CI with a pending or failed operation; `gaps` holds the journal's canonical pairs. */
  predicate InGap(r: Row, gaps: set<(string, string)>) {
    Asked(r) && (Lower(r.org.text), r.id.text) in gaps
  }

  function Key(r: Row): string {
    Lower(r.org.text) + ":" + r.id.text
  }

  /** The keys built from the answer of one statement about `rows`. */
  function KeysInGap(rows: seq<Row>, gaps: set<(string, string)>): set<string> {
    set r | r in rows && InGap(r, gaps) :: Key(r)
  }

  predicate Kept(r: Row, omitted: set<string>) {
    !r.org.Text? || Key(r) !in omitted
  }

  function KeptBy(omitted: set<string>): Row -> bool {
    r => Kept(r, omitted)
  }

  /** The final `rows.filter`. */
  function DropOmitted(rows: seq<Row>, omitted: set<string>): seq<Row> {
    Filter(KeptBy(omitted), rows)
  }

  function Outside(gaps: set<(string, string)>): Row -> bool {
    r => !InGap(r, gaps)
  }

  /** The rows that no pending or failed operation names, in order. */
  function WithoutGap(rows: seq<Row>, gaps: set<(string, string)>): seq<Row> {
    Filter(Outside(gaps), rows)
  }

  /** `filterGlobalCIGaps`, one statement per 1000 rows, keeps what a single statement over all rows would keep. */
  method FilterGlobalCIGaps(rows: seq<Row>, gaps: set<(string, string)>) returns (kept: seq<Row>)
    ensures kept == GapFiltered(rows, gaps)
  {
    var omitted: set<string> := {};
    var offset := 0;
    while offset < |rows|
      invariant 0 <= offset
      invariant omitted == KeysInGap(rows[..if offset <= |rows| then offset else |rows|], gaps)
    {
      var end := if offset + 1000 <= |rows| then offset + 1000 else |rows|;
      assert rows[..end] == rows[..offset] + rows[offset..end];
      omitted := omitted + KeysInGap(rows[offset..end], gaps);
      offset := offset + 1000;
    }
    assert rows[..|rows|] == rows;
    kept := DropOmitted(rows, omitted);
  }

  /** A row whose organization, if a string, is a UUID, and then its id is a string too. */
  predicate Plain(r: Row) {
    r.org.Text? ==> Asked(r)
  }

  /** Two rows whose organizations differ only in case name the same gap, and share a key. */
  lemma CaseDoesNotMatter(r: Row, s: Row, gaps: set<(string, string)>)
    requires r.id == s.id && r.org.Text? && s.org.Text? && SameLetters(r.org.text, s.org.text)
    ensures InGap(r, gaps) == InGap(s, gaps) && Key(r) == Key(s)
  {
    LowerIff(r.org.text, s.org.text);
    if IsUuid(r.org.text) {
      LowerUuid(r.org.text, s.org.text);
    }
    if IsUuid(s.org.text) {
      LowerUuid(s.org.text, r.org.text);
    }
  }

  lemma KeyIsInjective(r: Row, s: Row)
    requires Asked(r) && Asked(s) && Key(r) == Key(s)
    ensures Lower(r.org.text) == Lower(s.org.text) && r.id.text == s.id.text
  {
    assert Lower(r.org.text) == Key(r)[..36] && Lower(s.org.text) == Key(s)[..36];
    assert r.id.text == Key(r)[37..] && s.id.text == Key(s)[37..];
  }

  function GapFiltered(rows: seq<Row>, gaps: set<(string, string)>): seq<Row> {
    DropOmitted(rows, KeysInGap(rows, gaps))
  }

  /** Whatever the rows look like, no row of a gap survives. */
  lemma NoGapSurvives(rows: seq<Row>, gaps: set<(string, string)>)
    ensures forall r :: r in GapFiltered(rows, gaps) ==> r in rows && !InGap(r, gaps)
  {
    FilterMembers(KeptBy(KeysInGap(rows, gaps)), rows);
  }

  /** The journal is never asked about `s`, yet `s` has the key of `r`, about which it is. */
  predicate Shadows(r: Row, s: Row) {
    Asked(r) && s.org.Text? && !Asked(s) && Key(r) == Key(s)
  }

  /**
   For one set of gaps: exactly the rows of the gap are dropped if and only if no row of the gap shadows another row.
   */
  lemma FilterIsExactIff(rows: seq<Row>, gaps: set<(string, string)>)
    ensures GapFiltered(rows, gaps) == WithoutGap(rows, gaps) <==>
            !exists r, s :: r in rows && s in rows && InGap(r, gaps) && Shadows(r, s)
  {
    var omitted := KeysInGap(rows, gaps);
    if exists r, s :: r in rows && s in rows && InGap(r, gaps) && Shadows(r, s) {
      var r, s :| r in rows && s in rows && InGap(r, gaps) && Shadows(r, s);
      FilterMembers(KeptBy(omitted), rows);
      FilterMembers(Outside(gaps), rows);
      assert s in WithoutGap(rows, gaps) && s !in GapFiltered(rows, gaps);
    } else {
      forall s | s in rows ensures Kept(s, omitted) == !InGap(s, gaps) {
        if s.org.Text? && Key(s) in omitted {
          var r :| r in rows && InGap(r, gaps) && Key(r) == Key(s);
          assert !Shadows(r, s);
          KeyIsInjective(r, s);
        }
      }
      FilterAgrees(KeptBy(omitted), Outside(gaps), rows);
    }
  }

  /** For all gaps: the filter is exact whatever the journal holds if and only if no row shadows another. */
  lemma FilterIsAlwaysExactIff(rows: seq<Row>)
    ensures (forall gaps :: GapFiltered(rows, gaps) == WithoutGap(rows, gaps)) <==>
            !exists r, s :: r in rows && s in rows && Shadows(r, s)
  {
    if r, s :| r in rows && s in rows && Shadows(r, s) {
      var gaps := {(Lower(r.org.text), r.id.text)};
      FilterIsExactIff(rows, gaps);
      assert InGap(r, gaps);
    } else {
      forall gaps ensures GapFiltered(rows, gaps) == WithoutGap(rows, gaps) {
        FilterIsExactIff(rows, gaps);
      }
    }
  }

  /** The first class of shadowed rows: a value that is not a string, with the text of the string id. */
  predicate IsNamesake(r: Row, s: Row) {
    s.org.Text? && Lower(s.org.text) == Lower(r.org.text) && s.id.Other? && s.id.text == r.id.text
  }

  /** The second: an organization that goes on behind a UUID and a colon, with what it adds missing from the id. */
  predicate IsShifted(r: Row, s: Row) {
    && s.org.Text? && |s.org.text| > 36 && Lower(s.org.text[..36]) == Lower(r.org.text) && s.org.text[36] == ':'
    && r.id.text == Lower(s.org.text[37..]) + ":" + s.id.text
  }

  lemma LowerUuid(a: string, b: string)
    requires IsUuid(a) && Lower(a) == Lower(b)
    ensures IsUuid(b)
  {
    assert |Lower(a)| == |a| && |Lower(b)| == |b|;
    forall i | 0 <= i < 36
      ensures if i == 8 || i == 13 || i == 18 || i == 23 then b[i] == '-' else IsHex(b[i])
    {
      assert Lower(a)[i] == LowerChar(a[i]) && Lower(b)[i] == LowerChar(b[i]);
    }
  }

  lemma LowerSplits(s: string, n: nat)
    requires n < |s|
    ensures Lower(s) == Lower(s[..n]) + [LowerChar(s[n])] + Lower(s[n + 1..])
  {
  }

  lemma ShiftedKey(r: Row, s: Row)
    requires Asked(r) && IsShifted(r, s)
    ensures Key(r) == Key(s)
  {
    LowerSplits(s.org.text, 36);
    assert Key(s) == Lower(r.org.text) + (":" + (Lower(s.org.text[37..]) + ":" + s.id.text));
  }

  /** With one key, the organization of `s` is as long as that of `r`, or goes on behind a colon. */
  lemma OneKey(r: Row, s: Row)
    requires Asked(r) && s.org.Text? && Key(r) == Key(s)
    ensures |s.org.text| >= 36
    ensures |s.org.text| == 36 ==> Lower(s.org.text) == Lower(r.org.text) && s.id.text == r.id.text
    ensures |s.org.text| > 36 ==> IsShifted(r, s)
  {
    var u, v := r.org.text, s.org.text;
    var k, l := Key(r), Key(s);
    assert k[..36] == Lower(u) && k[36] == ':' && k[37..] == r.id.text;
    assert forall i | 0 <= i < 36 :: k[i] == LowerChar(u[i]) && k[i] != ':';
    assert l[..|v|] == Lower(v) && l[|v|] == ':' && l[|v| + 1..] == s.id.text;
    if |v| > 36 {
      LowerSplits(v, 36);
      assert l[..36] == Lower(v[..36]) && l[36] == LowerChar(v[36]);
      assert l[37..] == Lower(v[37..]) + ":" + s.id.text;
    }
  }

  /** These two classes are all there are. */
  lemma ShadowsIff(r: Row, s: Row)
    ensures Shadows(r, s) <==> Asked(r) && (IsNamesake(r, s) || IsShifted(r, s))
  {
    if Shadows(r, s) {
      OneKey(r, s);
      if |s.org.text| == 36 {
        LowerUuid(r.org.text, s.org.text);
      }
    } else if Asked(r) && IsShifted(r, s) {
      ShiftedKey(r, s);
    }
  }

  /** A number beside the string with its text is dropped although no operation names it; alone it survives. */
  lemma NumericIdIsShadowed(org: string, id: string, rows: seq<Row>)
    requires IsUuid(org) && Row(Text(id), Text(org)) in rows && Row(Other(id), Text(org)) in rows
    ensures
      var number, gaps := Row(Other(id), Text(org)), {(Lower(org), id)};
      !InGap(number, gaps) && number !in GapFiltered(rows, gaps) && number in GapFiltered([number], gaps)
  {
    var number, gaps := Row(Other(id), Text(org)), {(Lower(org), id)};
    ShadowedIsDropped(Row(Text(id), Text(org)), number, rows);
    FilterMembers(KeptBy(KeysInGap([number], gaps)), [number]);
    assert number in [number];
  }

  /** So is a row whose organization goes on behind the UUID, beside the row whose id begins with what it adds. */
  lemma LongOrganizationIsShadowed(org: string, more: string, id: string, rows: seq<Row>)
    requires IsUuid(org) && Row(Text(Lower(more) + ":" + id), Text(org)) in rows
             && Row(Text(id), Text(org + ":" + more)) in rows
    ensures
      var long, gaps := Row(Text(id), Text(org + ":" + more)), {(Lower(org), Lower(more) + ":" + id)};
      !InGap(long, gaps) && long !in GapFiltered(rows, gaps) && long in GapFiltered([long], gaps)
  {
    var long, gaps := Row(Text(id), Text(org + ":" + more)), {(Lower(org), Lower(more) + ":" + id)};
    var named := Row(Text(Lower(more) + ":" + id), Text(org));
    var text := org + ":" + more;
    assert text[..36] == org && text[36] == ':' && text[37..] == more;
    ShadowsIff(named, long);
    ShadowedIsDropped(named, long, rows);
    FilterMembers(KeptBy(KeysInGap([long], gaps)), [long]);
    assert long in [long];
  }

  lemma ShadowedIsDropped(r: Row, s: Row, rows: seq<Row>)
    requires Shadows(r, s) && r in rows && s in rows
    ensures var gaps := {(Lower(r.org.text), r.id.text)};
            !InGap(s, gaps) && s !in GapFiltered(rows, gaps)
  {
    var gaps := {(Lower(r.org.text), r.id.text)};
    assert InGap(r, gaps);
    FilterMembers(KeptBy(KeysInGap(rows, gaps)), rows);
  }

  /** On plain rows no row shadows another, so the filter drops the rows of the gap and nothing else. */
  lemma PlainFilterIsExact(rows: seq<Row>, gaps: set<(string, string)>)
    requires forall r :: r in rows ==> Plain(r)
    ensures GapFiltered(rows, gaps) == WithoutGap(rows, gaps)
  {
    FilterIsExactIff(rows, gaps);
  }

  // ----- ownership -----

  function IsIn(ids: set<string>): string -> bool {
    id => id in ids
  }

  function OwnedRows(rows: seq<string>, owned: set<string>): seq<string> {
    Filter(IsIn(owned), rows)
  }

  /** `filterOwnedDimensionRows`: the rows whose CI the graph shows as owned now, in order. */
  method FilterOwnedDimensionRows(rows: seq<string>, ownedInGraph: set<string>) returns (kept: seq<string>)
    ensures kept == OwnedRows(rows, ownedInGraph)
  {
    if rows == [] {
      return rows;
    }
    var owned: set<string> := {};
    var offset := 0;
    while offset < |rows|
      invariant 0 <= offset
      invariant forall id :: id in owned <==>
                  id in ownedInGraph && id in rows[..if offset <= |rows| then offset else |rows|]
    {
      var end := if offset + 1000 <= |rows| then offset + 1000 else |rows|;
      var ids := set id | id in rows[offset..end];
      assert rows[..end] == rows[..offset] + rows[offset..end];
      owned := owned + ids * ownedInGraph;
      offset := offset + 1000;
    }
    assert rows[..|rows|] == rows;
    kept := OwnedRows(rows, owned);
    FilterAgrees(IsIn(owned), IsIn(ownedInGraph), rows);
  }

  // ----- the page loop -----

  datatype PageError = Unavailable | QueryFailed

  const BATCHES: nat := 20

  function Page(list: seq<Row>, batch: nat): seq<Row> {
    if 100 * batch >= |list| then []
    else if 100 * (batch + 1) <= |list| then list[100 * batch..100 * (batch + 1)]
    else list[100 * batch..]
  }

  /** The first `n` of the parts, in order. */
  function Chain(part: nat -> seq<Row>, n: nat): seq<Row> {
    if n == 0 then [] else Chain(part, n - 1) + part(n - 1)
  }

  lemma {:induction false} ChainGrows(part: nat -> seq<Row>, n: nat, m: nat)
    requires n <= m
    ensures |Chain(part, n)| <= |Chain(part, m)|
  {
    if n < m {
      ChainGrows(part, n, m - 1);
    }
  }

  lemma ChainStep(part: nat -> seq<Row>, n: nat, m: nat)
    requires n < m
    ensures Chain(part, n) + part(n) == Chain(part, n + 1)
    ensures |Chain(part, n)| + |part(n)| <= |Chain(part, m)|
  {
    ChainGrows(part, n + 1, m);
  }

  /** A short page is the last one of the list. */
  lemma LastPage(list: seq<Row>, batch: nat)
    requires 100 * batch <= |list|
    ensures batch <= |list| / 100
    ensures |Page(list, batch)| < 100 <==> batch == |list| / 100
  {
  }

  /** Each page of the list, filtered on its own. */
  function FilteredPage(list: seq<Row>, gaps: set<(string, string)>): nat -> seq<Row> {
    (batch: nat) => GapFiltered(Page(list, batch), gaps)
  }

  /** The pages of the whole list, one after another. */
  function FilteredPages(list: seq<Row>, gaps: set<(string, string)>): seq<Row> {
    Chain(FilteredPage(list, gaps), |list| / 100 + 1)
  }

  /** What one turn of the loop adds, and when it is the last; `part` is what each page contributes. */
  lemma PageStep(list: seq<Row>, part: nat -> seq<Row>, batch: nat, next: nat)
    requires 100 * batch <= |list| && next == batch + 1
    ensures Chain(part, batch) + part(batch) == Chain(part, next)
    ensures |Chain(part, batch)| + |part(batch)| <= |Chain(part, |list| / 100 + 1)|
    ensures |Page(list, batch)| < 100 <==> |list| < 100 * next
    ensures |Page(list, batch)| < 100 ==> next == |list| / 100 + 1
  {
    LastPage(list, batch);
    ChainStep(part, batch, |list| / 100 + 1);
  }

  /** The whole filtered list, if the loop can reach its end and it fits a page; otherwise nothing. */
  function CompleteOrRefused(size: nat, all: seq<Row>): Result<seq<Row>, PageError> {
    if size < 2000 && |all| <= 100 then Ok(all) else Err(Unavailable)
  }

  /** How many turns the loop takes at most: to the end of the list, and never more than 20. */
  function Turns(list: seq<Row>): nat {
    if |list| < 2000 then |list| / 100 + 1 else BATCHES
  }

  /** The first `k` checks and queries pass. */
  predicate Calm(trouble: nat -> Option<PageError>, k: nat) {
    forall j | 0 <= j < k :: trouble(j).None?
  }

  /** The call ends with the error of its k-th check or query, the first that fails. */
  predicate Struck(r: Result<seq<Row>, PageError>, trouble: nat -> Option<PageError>, k: nat) {
    trouble(k).Some? && r == Err(trouble(k).value) && Calm(trouble, k)
  }

  /** One page and its gap filter, with the deadline checks around them. */
  method FilterBatch(list: seq<Row>, gaps: set<(string, string)>, trouble: nat -> Option<PageError>, batch: nat)
    returns (r: Result<seq<Row>, PageError>)
    requires Calm(trouble, 4 * batch)
    ensures r.Ok? ==> r.value == FilteredPage(list, gaps)(batch) && Calm(trouble, 4 * (batch + 1))
    ensures r.Err? ==> exists k | 4 * batch <= k < 4 * (batch + 1) :: Struck(r, trouble, k)
  {
    if trouble(4 * batch).Some? {
      r := Err(trouble(4 * batch).value);
      assert Struck(r, trouble, 4 * batch);
      return;
    }
    if trouble(4 * batch + 1).Some? {
      r := Err(trouble(4 * batch + 1).value);
      assert Struck(r, trouble, 4 * batch + 1);
      return;
    }
    var survivors := FilterGlobalCIGaps(Page(list, batch), gaps);
    if trouble(4 * batch + 2).Some? {
      r := Err(trouble(4 * batch + 2).value);
      assert Struck(r, trouble, 4 * batch + 2);
      return;
    }
    if trouble(4 * batch + 3).Some? {
      r := Err(trouble(4 * batch + 3).value);
      assert Struck(r, trouble, 4 * batch + 3);
      return;
    }
    r := Ok(survivors);
  }

  lemma LastTurn(list: seq<Row>, gaps: set<(string, string)>, trouble: nat -> Option<PageError>, next: nat)
    requires next == |list| / 100 + 1
    requires Calm(trouble, 4 * next)
    ensures FilteredPages(list, gaps) == Chain(FilteredPage(list, gaps), next)
    ensures next <= BATCHES ==> Calm(trouble, 4 * Turns(list))
  {
  }

  /**
   `readGlobalCIPage` over a list that stays the same. `trouble(k)` is what the k-th deadline check or query of the
   loop throws, four of them a batch.
   */
  method ReadGlobalCIPage(list: seq<Row>, gaps: set<(string, string)>, trouble: nat -> Option<PageError>)
    returns (r: Result<seq<Row>, PageError>)
    ensures || r == CompleteOrRefused(|list|, FilteredPages(list, gaps))
            || exists k | 0 <= k < 4 * Turns(list) :: Struck(r, trouble, k)
    ensures r.Ok? ==> Calm(trouble, 4 * Turns(list))
    ensures Calm(trouble, 4 * Turns(list)) ==> r == CompleteOrRefused(|list|, FilteredPages(list, gaps))
    ensures Calm(trouble, 4 * Turns(list)) ==>
              && (r.Ok? <==> |list| <= 1999 && |FilteredPages(list, gaps)| <= 100)
              && (r.Err? ==> r.error == Unavailable)
    ensures r.Ok? ==> r.value == FilteredPages(list, gaps)
  {
    var result: seq<Row> := [];
    var batch := 0;
    ghost var filtered := FilteredPage(list, gaps);
    while batch < BATCHES
      invariant batch <= BATCHES
      invariant result == Chain(filtered, batch) && |result| <= 100
      invariant 100 * batch <= |list| && Calm(trouble, 4 * batch)
    {
      var candidates := Page(list, batch);
      var survivors := FilterBatch(list, gaps, trouble, batch);
      if survivors.Err? {
        r := Err(survivors.error);
        LastPage(list, batch);
        var k :| 4 * batch <= k < 4 * (batch + 1) && Struck(survivors, trouble, k);
        assert 0 <= k < 4 * Turns(list) && Struck(r, trouble, k);
        return;
      }
      var next: nat := batch + 1;
      PageStep(list, filtered, batch, next);
      result := result + Take(survivors.value, 101 - |result|);
      if |result| > 100 {
        return Err(Unavailable);
      }
      if |candidates| < 100 {
        LastTurn(list, gaps, trouble, next);
        assert result == Chain(filtered, next);
        return Ok(result);
      }
      batch := next;
    }
    r := Err(Unavailable);
  }

  function Take(rows: seq<Row>, room: nat): seq<Row> {
    if |rows| <= room then rows else rows[..room]
  }

  /** How much of the list the first `n` pages cover. */
  function End(list: seq<Row>, n: nat): nat {
    if 100 * n <= |list| then 100 * n else |list|
  }

  lemma PagesJoin(list: seq<Row>, n: nat)
    ensures End(list, n) <= End(list, n + 1) <= |list|
    ensures list[..End(list, n + 1)] == list[..End(list, n)] + Page(list, n)
  {
  }

  /** Filtering page by page is filtering the list. */
  lemma {:induction false} PagesFilter(list: seq<Row>, part: nat -> seq<Row>, f: Row -> bool, n: nat)
    requires forall k | 0 <= k < n :: part(k) == Filter(f, Page(list, k))
    ensures Chain(part, n) == Filter(f, list[..End(list, n)])
  {
    if n > 0 {
      var m: nat := n - 1;
      PagesFilter(list, part, f, m);
      PagesJoin(list, m);
      FilterConcat(f, list[..End(list, m)], Page(list, m));
    }
  }

  lemma PlainPage(list: seq<Row>, gaps: set<(string, string)>, k: nat)
    requires forall r :: r in list ==> Plain(r)
    ensures FilteredPage(list, gaps)(k) == Filter(Outside(gaps), Page(list, k))
  {
    PlainFilterIsExact(Page(list, k), gaps);
  }

  /** On plain rows the pages together are the list without its gap, in order. */
  lemma PlainPagesAreExact(list: seq<Row>, gaps: set<(string, string)>)
    requires forall r :: r in list ==> Plain(r)
    ensures FilteredPages(list, gaps) == WithoutGap(list, gaps)
  {
    var part, n := FilteredPage(list, gaps), |list| / 100 + 1;
    forall k | 0 <= k < n ensures part(k) == Filter(Outside(gaps), Page(list, k)) {
      PlainPage(list, gaps, k);
    }
    PagesFilter(list, part, Outside(gaps), n);
    AllPages(list, n);
  }

  lemma AllPages(list: seq<Row>, n: nat)
    requires n == |list| / 100 + 1
    ensures list[..End(list, n)] == list
  {
  }
}
