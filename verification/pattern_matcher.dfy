/** Matching a scan against the active patterns, with the shared cache of earlier answers. */
module PatternMatcher {
  import opened Wrappers
  import opened Framing

  type Pattern = Plan

  datatype Detection = Detection(matches: bool, confidence: real, indicators: seq<string>)

  datatype Match = Match(patternId: string, version: string, confidence: real, indicators: seq<string>,
                         activeSetHash: string)

  datatype Error = StateUnavailable | UnsupportedPlan | NotActive

  /**
   The code the matcher calls: SHA-256 in hexadecimal, the two plan parsers, and the detection of one plan on one scan.
   */
  datatype Library = Library(
    sha: string -> string,
    detectionParses: string -> bool,
    discoveryParses: string -> bool,
    detect: (string, string) -> Detection)

  /** A hexadecimal SHA-256 digest has 64 digits. */
  ghost predicate Digests(lib: Library) {
    forall a :: |lib.sha(a)| == 64
  }

  /** Two of these texts share a digest. Nothing excludes it; what is proved says what holds unless it happens. */
  ghost predicate Collision(lib: Library, texts: set<string>) {
    exists a, b :: a in texts && b in texts && a != b && lib.sha(a) == lib.sha(b)
  }

  lemma CollisionIsMonotone(lib: Library, some: set<string>, all: set<string>)
    requires some <= all && Collision(lib, some)
    ensures Collision(lib, all)
  {
    var a, b :| a in some && b in some && a != b && lib.sha(a) == lib.sha(b);
    assert a in all && b in all;
  }

  function IndexIn(texts: seq<string>, text: string): nat {
    if texts == [] then 0 else if texts[0] == text then 0 else 1 + IndexIn(texts[1..], text)
  }

  function ListDigest(texts: seq<string>): string -> string {
    text => seq(64, _ => if IndexIn(texts, text) < 0xD800 then IndexIn(texts, text) as char else '0')
  }

  lemma {:induction false} IndexFinds(texts: seq<string>, text: string)
    requires text in texts
    ensures IndexIn(texts, text) < |texts| && texts[IndexIn(texts, text)] == text
  {
    if texts[0] != text {
      assert texts == [texts[0]] + texts[1..];
      IndexFinds(texts[1..], text);
    }
  }

  /**
   The two can be had together: for any texts, up to tens of thousands, some digests of 64 characters do not collide.
   */
  lemma DigestsNeedNotCollide(lib: Library, texts: seq<string>)
    requires |texts| < 0xD800
    ensures var some := lib.(sha := ListDigest(texts)); Digests(some) && !Collision(some, set t | t in texts)
  {
    var some := lib.(sha := ListDigest(texts));
    forall a, b | a in texts && b in texts && some.sha(a) == some.sha(b)
      ensures a == b
    {
      IndexFinds(texts, a);
      IndexFinds(texts, b);
      assert some.sha(a)[0] == IndexIn(texts, a) as char && some.sha(b)[0] == IndexIn(texts, b) as char;
    }
  }

  function ActiveSetHash(lib: Library, ps: seq<Pattern>): string {
    lib.sha(ActiveText(ps))
  }

  function CacheKey(lib: Library, ps: seq<Pattern>, scan: string): string {
    "ai:pattern:match:v2:" + (ActiveSetHash(lib, ps) + (":" + lib.sha(scan)))
  }

  /** What one look-up or store hashes. */
  function HashedFor(ps: seq<Pattern>, scan: string): set<string> {
    {ActiveText(ps), scan}
  }

  /** One key belongs to one sequence of plans and one scan, unless the texts collide. */
  lemma CacheKeyIsInjective(lib: Library, ps: seq<Pattern>, scan: string, qs: seq<Pattern>, other: string)
    requires Digests(lib) && CacheKey(lib, ps, scan) == CacheKey(lib, qs, other)
    ensures (ps == qs && scan == other) || Collision(lib, HashedFor(ps, scan) + HashedFor(qs, other))
  {
    var a, b := ActiveSetHash(lib, ps), ActiveSetHash(lib, qs);
    var x, y := a + (":" + lib.sha(scan)), b + (":" + lib.sha(other));
    assert x == CacheKey(lib, ps, scan)[20..] && y == CacheKey(lib, qs, other)[20..];
    assert a == x[..64] && b == y[..64];
    assert lib.sha(scan) == x[65..] && lib.sha(other) == y[65..];
    var texts := HashedFor(ps, scan) + HashedFor(qs, other);
    assert ActiveText(ps) in texts && ActiveText(qs) in texts && scan in texts && other in texts;
    if ActiveText(ps) == ActiveText(qs) {
      ActiveTextIsInjective(ps, qs);
    }
  }

  predicate Parses(lib: Library, p: Pattern) {
    lib.detectionParses(p.detection) && lib.discoveryParses(p.discovery)
  }

  predicate AllParse(lib: Library, ps: seq<Pattern>) {
    forall i | 0 <= i < |ps| :: Parses(lib, ps[i])
  }

  predicate Matches(lib: Library, p: Pattern, scan: string) {
    lib.detect(p.detection, scan).matches && lib.detect(p.detection, scan).confidence > 0.0
  }

  /** Pattern `i` beats pattern `j`: more confident, or as confident and not later. */
  predicate Beats(lib: Library, ps: seq<Pattern>, scan: string, i: int, j: int)
    requires 0 <= i < |ps| && 0 <= j < |ps|
  {
    var c, d := lib.detect(ps[i].detection, scan).confidence, lib.detect(ps[j].detection, scan).confidence;
    c > d || (c == d && i <= j)
  }

  function MatchOf(lib: Library, ps: seq<Pattern>, scan: string, i: int): Match
    requires 0 <= i < |ps|
  {
    var d := lib.detect(ps[i].detection, scan);
    Match(ps[i].id, ps[i].version, d.confidence, d.indicators, ActiveSetHash(lib, ps))
  }

  ghost predicate IsBestAt(lib: Library, ps: seq<Pattern>, scan: string, i: int) {
    && 0 <= i < |ps| && Matches(lib, ps[i], scan)
    && forall j :: 0 <= j < |ps| && Matches(lib, ps[j], scan) ==> Beats(lib, ps, scan, i, j)
  }

  /** The direct answer: the first most confident match of the patterns, or none. */
  ghost predicate IsBest(lib: Library, ps: seq<Pattern>, scan: string, answer: Option<Match>) {
    match answer
    case None => forall j :: 0 <= j < |ps| ==> !Matches(lib, ps[j], scan)
    case Some(m) => exists i :: IsBestAt(lib, ps, scan, i) && m == MatchOf(lib, ps, scan, i)
  }

  lemma BestIsUnique(lib: Library, ps: seq<Pattern>, scan: string, a: Option<Match>, b: Option<Match>)
    requires IsBest(lib, ps, scan, a) && IsBest(lib, ps, scan, b)
    ensures a == b
  {
    if a.Some? && b.Some? {
      var i :| IsBestAt(lib, ps, scan, i) && a.value == MatchOf(lib, ps, scan, i);
      var j :| IsBestAt(lib, ps, scan, j) && b.value == MatchOf(lib, ps, scan, j);
      assert Beats(lib, ps, scan, i, j) && Beats(lib, ps, scan, j, i);
    }
  }

  /** Pattern `i` matches, none matches with more confidence, and none before it with as much. */
  predicate IsFirstOfHighest(lib: Library, ps: seq<Pattern>, scan: string, i: int) {
    && 0 <= i < |ps| && lib.detect(ps[i].detection, scan).matches && lib.detect(ps[i].detection, scan).confidence > 0.0
    && forall j | 0 <= j < |ps| && lib.detect(ps[j].detection, scan).matches ::
         && lib.detect(ps[j].detection, scan).confidence <= lib.detect(ps[i].detection, scan).confidence
         && (j < i ==> lib.detect(ps[j].detection, scan).confidence < lib.detect(ps[i].detection, scan).confidence)
  }

  /**
   What the direct answer says: that pattern's id and version, what its detection found, and the hash of the active
   set.
   */
  lemma BestReports(lib: Library, ps: seq<Pattern>, scan: string, answer: Option<Match>)
    requires IsBest(lib, ps, scan, answer)
    ensures answer.None? <==>
            forall j | 0 <= j < |ps| ::
              !(lib.detect(ps[j].detection, scan).matches && lib.detect(ps[j].detection, scan).confidence > 0.0)
    ensures answer.Some? ==>
              exists i :: IsFirstOfHighest(lib, ps, scan, i) &&
                var m, d := answer.value, lib.detect(ps[i].detection, scan);
                && m.patternId == ps[i].id && m.version == ps[i].version
                && m.confidence == d.confidence && m.indicators == d.indicators
                && m.activeSetHash == lib.sha(ActiveText(ps))
  {
    if answer.Some? {
      var i :| IsBestAt(lib, ps, scan, i) && answer.value == MatchOf(lib, ps, scan, i);
      assert Matches(lib, ps[i], scan);
      forall j | 0 <= j < |ps| && lib.detect(ps[j].detection, scan).matches
        ensures lib.detect(ps[j].detection, scan).confidence <= lib.detect(ps[i].detection, scan).confidence
        ensures j < i ==> lib.detect(ps[j].detection, scan).confidence < lib.detect(ps[i].detection, scan).confidence
      {
        if lib.detect(ps[j].detection, scan).confidence > 0.0 {
          assert Matches(lib, ps[j], scan);
          assert Beats(lib, ps, scan, i, j);
        }
      }
      assert IsFirstOfHighest(lib, ps, scan, i);
    } else {
      forall j | 0 <= j < |ps|
        ensures !(lib.detect(ps[j].detection, scan).matches && lib.detect(ps[j].detection, scan).confidence > 0.0)
      {
        assert !Matches(lib, ps[j], scan);
      }
    }
  }

  /** One plan body of one pattern is enough to refuse a match. */
  lemma RefusedIff(lib: Library, ps: seq<Pattern>)
    ensures !AllParse(lib, ps) <==>
            exists i | 0 <= i < |ps| :: !lib.detectionParses(ps[i].detection) || !lib.discoveryParses(ps[i].discovery)
  {
    if i :| 0 <= i < |ps| && (!lib.detectionParses(ps[i].detection) || !lib.discoveryParses(ps[i].discovery)) {
      assert !Parses(lib, ps[i]);
    }
  }

  type Cache = map<string, Option<Match>>

  /** The direct answer for some plans and a scan whose texts are among those hashed, stored under their key. */
  ghost predicate Stored(lib: Library, key: string, answer: Option<Match>, ps: seq<Pattern>, scan: string,
                         hashed: set<string>) {
    HashedFor(ps, scan) <= hashed && key == CacheKey(lib, ps, scan) && IsBest(lib, ps, scan, answer)
  }

  /** Every entry has such an origin. */
  ghost predicate Sourced(lib: Library, cache: Cache, hashed: set<string>) {
    forall key :: key in cache ==> exists ps, scan :: Stored(lib, key, cache[key], ps, scan, hashed)
  }

  lemma SourcedGrows(lib: Library, cache: Cache, some: set<string>, all: set<string>)
    requires Sourced(lib, cache, some) && some <= all
    ensures Sourced(lib, cache, all)
  {
    forall key | key in cache ensures exists ps, scan :: Stored(lib, key, cache[key], ps, scan, all) {
      var ps, scan :| Stored(lib, key, cache[key], ps, scan, some);
      assert Stored(lib, key, cache[key], ps, scan, all);
    }
  }

  lemma StoreKeepsSourced(lib: Library, cache: Cache, hashed: set<string>, ps: seq<Pattern>, scan: string,
                          answer: Option<Match>)
    requires Sourced(lib, cache, hashed) && HashedFor(ps, scan) <= hashed && IsBest(lib, ps, scan, answer)
    ensures Sourced(lib, cache[CacheKey(lib, ps, scan) := answer], hashed)
  {
    assert Stored(lib, CacheKey(lib, ps, scan), answer, ps, scan, hashed);
  }

  /** A cached answer is the direct one, unless texts hashed so far collide. */
  lemma HitIsDirect(lib: Library, cache: Cache, hashed: set<string>, ps: seq<Pattern>, scan: string)
    requires Digests(lib) && Sourced(lib, cache, hashed) && HashedFor(ps, scan) <= hashed
             && CacheKey(lib, ps, scan) in cache
    ensures IsBest(lib, ps, scan, cache[CacheKey(lib, ps, scan)]) || Collision(lib, hashed)
  {
    var key := CacheKey(lib, ps, scan);
    var qs, other :| Stored(lib, key, cache[key], qs, other, hashed);
    CacheKeyIsInjective(lib, ps, scan, qs, other);
    if Collision(lib, HashedFor(ps, scan) + HashedFor(qs, other)) {
      CollisionIsMonotone(lib, HashedFor(ps, scan) + HashedFor(qs, other), hashed);
    }
  }

  // ----- runs -----

  /** The active patterns in the database and the shared cache. */
  datatype State = State(active: seq<Pattern>, cache: Cache)

  datatype Event =
    | Change(active: seq<Pattern>)
    | Lose(keys: set<string>)
    | Ask(scan: string, answer: Result<Option<Match>, Error>)

  /** What a call of `match` may answer and leave in the cache; Redis may fail at either access. */
  ghost predicate Asks(lib: Library, s: State, scan: string, answer: Result<Option<Match>, Error>, s': State) {
    var key := CacheKey(lib, s.active, scan);
    if !AllParse(lib, s.active) then answer == Err(UnsupportedPlan) && s' == s
    else
      && s'.active == s.active && answer.Ok?
      && ((key in s.cache && answer.value == s.cache[key] && s' == s)
          || (IsBest(lib, s.active, scan, answer.value)
              && (s' == s || s'.cache == s.cache[key := answer.value])))
  }

  ghost predicate Steps(lib: Library, s: State, e: Event, s': State) {
    match e
    case Change(active) => s' == s.(active := active)
    case Lose(keys) => s' == s.(cache := s.cache - keys)
    case Ask(scan, answer) => Asks(lib, s, scan, answer, s')
  }

  /** A run from an empty cache: `states[i]` is the state before event `i`. */
  ghost predicate IsRun(lib: Library, events: seq<Event>, states: seq<State>) {
    && |states| == |events| + 1 && states[0].cache == map[]
    && forall i :: 0 <= i < |events| ==> Steps(lib, states[i], events[i], states[i + 1])
  }

  /** The texts that the first `n` events hash; a refused match hashes none. */
  function Hashed(lib: Library, events: seq<Event>, states: seq<State>, n: nat): set<string>
    requires n <= |events| && |states| == |events| + 1
  {
    if n == 0 then {}
    else
      Hashed(lib, events, states, n - 1) +
      if events[n - 1].Ask? && AllParse(lib, states[n - 1].active)
      then HashedFor(states[n - 1].active, events[n - 1].scan)
      else {}
  }

  lemma StepKeepsSourced(lib: Library, s: State, e: Event, s': State, hashed: set<string>)
    requires Steps(lib, s, e, s') && Sourced(lib, s.cache, hashed)
    requires e.Ask? && AllParse(lib, s.active) ==> HashedFor(s.active, e.scan) <= hashed
    ensures Sourced(lib, s'.cache, hashed)
  {
    if e.Ask? && s' != s {
      StoreKeepsSourced(lib, s.cache, hashed, s.active, e.scan, e.answer.value);
    }
  }

  lemma {:induction false} RunKeepsSourced(lib: Library, events: seq<Event>, states: seq<State>, n: nat)
    requires IsRun(lib, events, states) && n <= |events|
    ensures Sourced(lib, states[n].cache, Hashed(lib, events, states, n))
  {
    if n > 0 {
      var hashed := Hashed(lib, events, states, n);
      RunKeepsSourced(lib, events, states, n - 1);
      SourcedGrows(lib, states[n - 1].cache, Hashed(lib, events, states, n - 1), hashed);
      StepKeepsSourced(lib, states[n - 1], events[n - 1], states[n], hashed);
    }
  }

  /**
   The cache refines direct matching. Over any run of library changes, lost entries and matches, a match is refused
   exactly when a plan active at that moment does not parse, and otherwise its answer is the direct one for the patterns
   active at that moment -- or two different texts hashed in the run up to then share a digest.
   */
  lemma CacheRefinesMatching(lib: Library, events: seq<Event>, states: seq<State>, n: nat)
    requires Digests(lib) && IsRun(lib, events, states) && n < |events| && events[n].Ask?
    ensures events[n].answer == Err(UnsupportedPlan) <==> !AllParse(lib, states[n].active)
    ensures events[n].answer.Ok? || events[n].answer == Err(UnsupportedPlan)
    ensures events[n].answer.Ok? ==>
              || IsBest(lib, states[n].active, events[n].scan, events[n].answer.value)
              || Collision(lib, Hashed(lib, events, states, n + 1))
  {
    var s, scan, hashed := states[n], events[n].scan, Hashed(lib, events, states, n + 1);
    RunKeepsSourced(lib, events, states, n);
    SourcedGrows(lib, s.cache, Hashed(lib, events, states, n), hashed);
    assert Steps(lib, s, events[n], states[n + 1]);
    if AllParse(lib, s.active) && CacheKey(lib, s.active, scan) in s.cache {
      HitIsDirect(lib, s.cache, hashed, s.active, scan);
    }
  }

  /** A change of the library is what the next match is about, unless its answer for just these patterns is cached. */
  lemma ChangesAreSeen(lib: Library, s: State, active: seq<Pattern>, s1: State,
                       scan: string, answer: Result<Option<Match>, Error>, s2: State)
    requires Steps(lib, s, Change(active), s1) && Steps(lib, s1, Ask(scan, answer), s2) && AllParse(lib, active)
    ensures answer.Ok? && s2.active == active
    ensures CacheKey(lib, active, scan) !in s.cache ==> IsBest(lib, active, scan, answer.value)
  {
  }

  /** A lost entry is answered from the patterns themselves, and nothing but the entries named is lost. */
  lemma LostEntriesAreMatchedAgain(lib: Library, s: State, keys: set<string>, s1: State,
                                   scan: string, answer: Result<Option<Match>, Error>, s2: State)
    requires Steps(lib, s, Lose(keys), s1) && Steps(lib, s1, Ask(scan, answer), s2) && AllParse(lib, s.active)
    ensures s2.active == s.active
    ensures CacheKey(lib, s.active, scan) in keys ==> answer.Ok? && IsBest(lib, s.active, scan, answer.value)
    ensures forall key :: key in s.cache && key !in keys ==> key in s2.cache
  {
  }

  // ----- the matcher -----

  class Matcher {
    const lib: Library
    var patterns: seq<Pattern>
    var redis: Cache
    /** The texts hashed for the cache so far. */
    ghost var hashed: set<string>

    ghost predicate Valid()
      reads this
    {
      Digests(lib) && Sourced(lib, redis, hashed)
    }

    constructor (lib: Library)
      requires Digests(lib)
      ensures Valid() && this.lib == lib && redis == map[] && hashed == {}
    {
      this.lib, patterns, redis, hashed := lib, [], map[], {};
    }

    /**
     `match`: `active` is what the authoritative read returns, `getFails` and `setFails` whether Redis rejects.
     The answer is the direct one unless hashed texts collide; a cached answer never hides a plan that does not parse.
     */
    method MatchScan(active: Option<seq<Pattern>>, scan: string, getFails: bool, setFails: bool)
      returns (answer: Result<Option<Match>, Error>)
      requires Valid()
      modifies this
      ensures Valid()
      ensures active.None? ==>
                answer == Err(StateUnavailable) && patterns == old(patterns) && redis == old(redis)
                    && hashed == old(hashed)
      ensures active.Some? ==>
                && patterns == active.value
                && hashed == old(hashed) + (if AllParse(lib, active.value) then HashedFor(active.value, scan) else {})
                && Asks(lib, State(active.value, old(redis)), scan, answer, State(active.value, redis))
                && (answer.Ok? ==> IsBest(lib, active.value, scan, answer.value) || Collision(lib, hashed))
                && (answer.Ok? && getFails ==> IsBest(lib, active.value, scan, answer.value))
      ensures active.Some? && AllParse(lib, active.value) ==>
                var key := CacheKey(lib, active.value, scan);
                if !getFails && key in old(redis) then answer == Ok(old(redis)[key]) && redis == old(redis)
                else answer.Ok? && redis == if setFails then old(redis) else old(redis)[key := answer.value]
    {
      if active.None? {
        return Err(StateUnavailable);
      }
      var ps := active.value;
      patterns := ps;
      if !AllParse(lib, ps) {
        return Err(UnsupportedPlan);
      }
      SourcedGrows(lib, redis, hashed, hashed + HashedFor(ps, scan));
      hashed := hashed + HashedFor(ps, scan);
      var key := CacheKey(lib, ps, scan);
      if !getFails && key in redis {
        HitIsDirect(lib, redis, hashed, ps, scan);
        return Ok(redis[key]);
      }
      var best := BestMatch(lib, ps, scan);
      StoreKeepsSourced(lib, redis, hashed, ps, scan, best);
      if !setFails {
        redis := redis[key := best];
      }
      answer := Ok(best);
    }

    /**
     The guard of `executePattern`: which pattern's discovery plan runs, if any. `expected` is the hash carried by a
     match, if the caller has one.
     */
    method ExecuteGuard(active: Option<seq<Pattern>>, patternId: string, expected: Option<string>)
      returns (r: Result<Pattern, Error>)
      modifies this`patterns
      ensures patterns == if active.Some? then active.value else old(patterns)
      ensures r.Ok? <==>
                && active.Some? && (expected.Some? ==> expected.value == ActiveSetHash(lib, active.value))
                && exists i :: FirstWithId(active.value, patternId, i) && Parses(lib, active.value[i])
      ensures r.Ok? ==>
              exists i :: FirstWithId(active.value, patternId, i) && r.value == active.value[i] && Parses(lib, r.value)
      ensures r == Err(StateUnavailable) <==> active.None?
      ensures r == Err(UnsupportedPlan) <==>
                && active.Some? && (expected.Some? ==> expected.value == ActiveSetHash(lib, active.value))
                && exists i :: FirstWithId(active.value, patternId, i) && !Parses(lib, active.value[i])
    {
      if active.None? {
        return Err(StateUnavailable);
      }
      patterns := active.value;
      if expected.Some? && expected.value != ActiveSetHash(lib, patterns) {
        return Err(NotActive);
      }
      var i := 0;
      while i < |patterns| && patterns[i].id != patternId
        invariant i <= |patterns|
        invariant forall j :: 0 <= j < i ==> patterns[j].id != patternId
      {
        i := i + 1;
      }
      if i == |patterns| {
        return Err(NotActive);
      }
      assert FirstWithId(patterns, patternId, i);
      r := if Parses(lib, patterns[i]) then Ok(patterns[i]) else Err(UnsupportedPlan);
    }
  }

  ghost predicate FirstWithId(ps: seq<Pattern>, id: string, i: int) {
    0 <= i < |ps| && ps[i].id == id && forall j :: 0 <= j < i ==> ps[j].id != id
  }

  /** The pattern found is there exactly when the id is, and is the only one with it when ids are distinct. */
  lemma {:induction false} FirstWithIdIff(ps: seq<Pattern>, id: string)
    ensures (exists i :: FirstWithId(ps, id, i)) <==> exists p :: p in ps && p.id == id
    ensures (forall a, b :: 0 <= a < b < |ps| ==> ps[a].id != ps[b].id) ==>
              forall i :: FirstWithId(ps, id, i) <==> 0 <= i < |ps| && ps[i].id == id
    ensures forall i, j :: FirstWithId(ps, id, i) && 0 <= j < |ps| && ps[j].id == id ==> i <= j
  {
    if p :| p in ps && p.id == id {
      var k: nat :| k < |ps| && ps[k] == p;
      var i := Earliest(ps, id, k);
      assert FirstWithId(ps, id, i);
    }
    if i :| FirstWithId(ps, id, i) {
      assert ps[i] in ps;
    }
  }

  lemma Earliest(ps: seq<Pattern>, id: string, k: nat) returns (i: nat)
    requires k < |ps| && ps[k].id == id
    ensures i <= k && FirstWithId(ps, id, i)
  {
    i := 0;
    while ps[i].id != id
      invariant i <= k && forall j :: 0 <= j < i ==> ps[j].id != id
      decreases k - i
    {
      i := i + 1;
    }
  }

  /** The loop of `match` over the active patterns. */
  method BestMatch(lib: Library, ps: seq<Pattern>, scan: string) returns (best: Option<Match>)
    ensures IsBest(lib, ps, scan, best)
  {
    best := None;
    var bestConfidence := 0.0;
    ghost var at := 0;
    var index := 0;
    while index < |ps|
      invariant 0 <= index <= |ps| && bestConfidence >= 0.0
      invariant best.None? ==> bestConfidence == 0.0 && forall j :: 0 <= j < index ==> !Matches(lib, ps[j], scan)
      invariant best.Some? ==>
                  && 0 <= at < index && Matches(lib, ps[at], scan) && best.value == MatchOf(lib, ps, scan, at)
                  && bestConfidence == lib.detect(ps[at].detection, scan).confidence
                  && forall j :: 0 <= j < index && Matches(lib, ps[j], scan) ==> Beats(lib, ps, scan, at, j)
    {
      var result := lib.detect(ps[index].detection, scan);
      if result.matches && result.confidence > bestConfidence {
        bestConfidence := result.confidence;
        best := Some(Match(ps[index].id, ps[index].version, result.confidence, result.indicators,
                           ActiveSetHash(lib, ps)));
        at := index;
      }
      index := index + 1;
    }
    assert best.Some? ==> IsBestAt(lib, ps, scan, at);
  }

  /**
   From match to execution. A guarded execution of a match found over `ps` runs only if the active plans are still
   exactly `ps`, and it then runs the plan that matched, patterns having distinct ids -- or the texts of the two
   active sets share a digest.
   */
  lemma ExecutionRunsTheMatchedPlan(lib: Library, ps: seq<Pattern>, scan: string, m: Match, now: seq<Pattern>, i: int)
    requires IsBest(lib, ps, scan, Some(m))
    requires m.activeSetHash == ActiveSetHash(lib, now) && FirstWithId(now, m.patternId, i)
    requires forall a, b :: 0 <= a < b < |ps| ==> ps[a].id != ps[b].id
    ensures (now == ps && IsBestAt(lib, ps, scan, i) && m == MatchOf(lib, ps, scan, i))
            || Collision(lib, {ActiveText(now), ActiveText(ps)})
  {
    var best :| IsBestAt(lib, ps, scan, best) && m == MatchOf(lib, ps, scan, best);
    if ActiveText(now) == ActiveText(ps) {
      ActiveTextIsInjective(now, ps);
      assert ps[best].id == ps[i].id;
    } else {
      var texts := {ActiveText(now), ActiveText(ps)};
      assert ActiveText(now) in texts && ActiveText(ps) in texts;
    }
  }
}
