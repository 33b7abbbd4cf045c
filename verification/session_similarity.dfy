/** When two session signatures count as similar. */
module SessionSimilarity {
  import opened RequestShape
  import opened RollingHash
  import opened SessionSignature

  function Min(a: int, b: int): int { if a < b then a else b }

  function Max(a: int, b: int): int { if a < b then b else a }

  /** The places at which two sequences hold the same name. */
  function Agreements(s: seq<Name>, t: seq<Name>, upTo: nat): set<nat>
    requires upTo <= |s| && upTo <= |t|
  {
    set i: nat | i < upTo && s[i] == t[i]
  }

  function Agreeing(s: seq<Name>, t: seq<Name>): nat {
    |Agreements(s, t, Min(|s|, |t|))|
  }

  function SequenceSimilarity(s: seq<Name>, t: seq<Name>): real {
    if |s| == 0 && |t| == 0 then 1.0
    else if |s| == 0 || |t| == 0 then 0.0
    else Agreeing(s, t) as real / Max(|s|, |t|) as real
  }

  /** `calculateSequenceSimilarity`. */
  method CalculateSequenceSimilarity(seq1: seq<Name>, seq2: seq<Name>) returns (similarity: real)
    ensures similarity == SequenceSimilarity(seq1, seq2)
    ensures 0.0 <= similarity <= 1.0
    ensures similarity == 1.0 <==> seq1 == seq2
  {
    SequenceLaws(seq1, seq2);
    if |seq1| == 0 && |seq2| == 0 { return 1.0; }
    if |seq1| == 0 || |seq2| == 0 { return 0.0; }
    var maxLength := Max(|seq1|, |seq2|);
    var matches := 0;
    for i := 0 to Min(|seq1|, |seq2|)
      invariant matches == |Agreements(seq1, seq2, i)|
    {
      AgreementsGrow(seq1, seq2, i);
      if seq1[i] == seq2[i] { matches := matches + 1; }
    }
    similarity := matches as real / maxLength as real;
  }

  lemma AgreementsGrow(s: seq<Name>, t: seq<Name>, i: nat)
    requires i < |s| && i < |t|
    ensures |Agreements(s, t, i + 1)| == |Agreements(s, t, i)| + if s[i] == t[i] then 1 else 0
  {
    assert Agreements(s, t, i + 1) == Agreements(s, t, i) + if s[i] == t[i] then {i} else {};
  }

  lemma {:induction false} AgreementsBound(s: seq<Name>, t: seq<Name>, n: nat)
    requires n <= |s| && n <= |t|
    ensures |Agreements(s, t, n)| <= n
    ensures |Agreements(s, t, n)| == n <==> s[..n] == t[..n]
  {
    if n > 0 {
      AgreementsBound(s, t, n - 1);
      AgreementsGrow(s, t, n - 1);
      assert s[..n] == s[..n - 1] + [s[n - 1]] && t[..n] == t[..n - 1] + [t[n - 1]];
    }
  }

  lemma RatioReaches(p: nat, q: nat, a: nat, b: nat)
    requires q > 0 && b > 0
    ensures p as real / q as real >= a as real / b as real <==> p * b >= a * q
  {
    var x, y := p as real / q as real, a as real / b as real;
    assert x * q as real == p as real && y * b as real == a as real;
    var f := q as real * b as real;
    assert x * f == (p * b) as real && y * f == (a * q) as real;
    if x >= y {
      assert x * f >= y * f;
    } else {
      assert x * f < y * f;
    }
  }

  lemma RatioBounds(p: nat, q: nat)
    requires p <= q && q > 0
    ensures 0.0 <= p as real / q as real <= 1.0
    ensures p as real / q as real == 1.0 <==> p == q
    ensures p as real / q as real == 0.0 <==> p == 0
  {
    assert p as real / q as real * q as real == p as real;
    RatioReaches(1, 1, p, q);
    RatioReaches(p, q, 1, 1);
  }

  /** The sequence measure lies in 0..1, is 1 on equal sequences only, and is symmetric. */
  lemma SequenceLaws(s: seq<Name>, t: seq<Name>)
    ensures 0.0 <= SequenceSimilarity(s, t) <= 1.0
    ensures SequenceSimilarity(s, t) == 1.0 <==> s == t
    ensures SequenceSimilarity(s, t) == SequenceSimilarity(t, s)
  {
    var n := Min(|s|, |t|);
    assert Agreements(s, t, n) == Agreements(t, s, n);
    if |s| != 0 && |t| != 0 {
      AgreementsBound(s, t, n);
      RatioBounds(Agreeing(s, t), Max(|s|, |t|));
      assert s[..|s|] == s && t[..|t|] == t;
    }
  }

  function Elements(s: seq<Name>): set<Name> {
    set x | x in s
  }

  /** `calculateSetSimilarity`: the size of the intersection over the size of the union. */
  function SetSimilarity(s: seq<Name>, t: seq<Name>): real {
    if |s| == 0 && |t| == 0 then 1.0
    else if |s| == 0 || |t| == 0 then 0.0
    else
      assert s[0] in Elements(s) + Elements(t);
      |Elements(s) * Elements(t)| as real / |Elements(s) + Elements(t)| as real
  }

  lemma SubsetSize(a: set<Name>, b: set<Name>)
    requires a <= b
    ensures |a| <= |b|
    ensures |a| == |b| <==> a == b
  {
    assert b == a + (b - a);
  }

  /** The set measure lies in 0..1, is 1 on equal sets only, 0 on disjoint ones only, and is symmetric. */
  lemma SetLaws(s: seq<Name>, t: seq<Name>)
    ensures 0.0 <= SetSimilarity(s, t) <= 1.0
    ensures SetSimilarity(s, t) == 1.0 <==> Elements(s) == Elements(t)
    ensures SetSimilarity(s, t) == 0.0 <==> Elements(s) !! Elements(t) && (s != [] || t != [])
    ensures SetSimilarity(s, t) == SetSimilarity(t, s)
  {
    var a, b := Elements(s), Elements(t);
    assert s != [] ==> s[0] in a;
    assert t != [] ==> t[0] in b;
    assert a + b == b + a && a * b == b * a;
    if s != [] && t != [] {
      assert s[0] in a + b;
      SubsetSize(a * b, a + b);
      RatioBounds(|a * b|, |a + b|);
      assert a * b == a + b <==> a == b by {
        if a * b == a + b {
          assert forall x | x in a :: x in a * b;
          assert forall x | x in b :: x in a * b;
        }
      }
      assert |a * b| == 0 <==> a * b == {};
    }
  }

  /** `signaturesAreSimilar`. */
  predicate SignaturesAreSimilar(sig1: Signature, sig2: Signature) {
    sig1.hash == sig2.hash ||
    (SequenceSimilarity(sig1.toolSequence, sig2.toolSequence) >= 0.7
     && SetSimilarity(sig1.indicators, sig2.indicators) >= 0.5)
  }

  lemma SimilarityIsReflexiveAndSymmetric(sig1: Signature, sig2: Signature)
    ensures SignaturesAreSimilar(sig1, sig1)
    ensures SignaturesAreSimilar(sig1, sig2) == SignaturesAreSimilar(sig2, sig1)
  {
    SequenceLaws(sig1.toolSequence, sig2.toolSequence);
    SetLaws(sig1.indicators, sig2.indicators);
  }

  /**
   The whole test in whole numbers, with no case for empty sides: seven tenths of the longer sequence, half of the
   union.
   */
  lemma SimilarIff(sig1: Signature, sig2: Signature)
    ensures SignaturesAreSimilar(sig1, sig2) <==>
            || sig1.hash == sig2.hash
            || (&& 10 * Agreeing(sig1.toolSequence, sig2.toolSequence) >=
                   7 * Max(|sig1.toolSequence|, |sig2.toolSequence|)
                && 2 * |Elements(sig1.indicators) * Elements(sig2.indicators)| >=
                   |Elements(sig1.indicators) + Elements(sig2.indicators)|)
  {
    ToolsReach(sig1.toolSequence, sig2.toolSequence);
    IndicatorsReach(sig1.indicators, sig2.indicators);
  }

  lemma ToolsReach(s: seq<Name>, t: seq<Name>)
    ensures SequenceSimilarity(s, t) >= 0.7 <==> 10 * Agreeing(s, t) >= 7 * Max(|s|, |t|)
  {
    AgreementsBound(s, t, Min(|s|, |t|));
    if s != [] && t != [] {
      RatioReaches(Agreeing(s, t), Max(|s|, |t|), 7, 10);
    }
  }

  lemma IndicatorsReach(s: seq<Name>, t: seq<Name>)
    ensures SetSimilarity(s, t) >= 0.5 <==> 2 * |Elements(s) * Elements(t)| >= |Elements(s) + Elements(t)|
  {
    var a, b := Elements(s), Elements(t);
    assert s != [] ==> s[0] in a + b;
    assert t != [] ==> t[0] in a + b;
    if s != [] && t != [] {
      RatioReaches(|a * b|, |a + b|, 1, 2);
    } else {
      assert a * b == {};
      assert s == [] && t == [] ==> a + b == {};
    }
  }

  /** Signatures of one canonical form are similar at the hash. */
  lemma SameFormIsSimilar(calls: seq<ToolCall>, others: seq<ToolCall>)
    requires Tools(calls) == Tools(others) && multiset(Indicators(calls)) == multiset(Indicators(others))
    ensures SignaturesAreSimilar(SignatureOf(calls), SignatureOf(others))
  {
    SignatureIsCanonical(calls, others);
  }

  lemma FirstToolText(a: Unit, b: Unit, tools: seq<Name>, indicators: seq<Name>)
    requires 0x41 <= a < 0x5B || 0x61 <= a < 0x7B
    requires 0x41 <= b < 0x5B || 0x61 <= b < 0x7B
    ensures SignatureText([[a, b]] + tools, indicators) == Opening() + [a, b] + AfterTool(tools, indicators)
  {
    var names, start := [[a, b]] + tools, Ascii("{\"tools\":[");
    var x := Ascii(",\"indicators\":[") + (QuotedList(indicators) + [0x5D, 0x7D]);
    assert names[1..] == tools;
    ListStart(names, x);
    PlainPair(a, b);
    var after := [0x22] + AfterFirst(names, x);
    Associate(start, [0x22], [a, b] + after);
    Associate(start + [0x22], [a, b], after);
  }

  lemma PlainPair(a: Unit, b: Unit)
    requires 0x41 <= a < 0x5B || 0x61 <= a < 0x7B
    requires 0x41 <= b < 0x5B || 0x61 <= b < 0x7B
    ensures QuotedUnits([a, b]) == [a, b]
  {
    assert [a, b][1..] == [b] && [b][1..] == [];
    assert QuotedUnits([b]) == [b] + QuotedUnits([b][1..]);
  }

  function Opening(): seq<Unit> {
    Ascii("{\"tools\":[") + [0x22]
  }

  /** What follows the first tool's name. */
  function AfterTool(tools: seq<Name>, indicators: seq<Name>): seq<Unit> {
    var x := Ascii(",\"indicators\":[") + (QuotedList(indicators) + [0x5D, 0x7D]);
    [0x22] + if tools == [] then [0x5D] + x else [0x2C] + (QuotedList(tools) + ([0x5D] + x))
  }

  /**
   The converse fails at the hash: replacing a first tool `Aa` by `BB` always leaves sessions similar,
   even when that was the only tool and the sequence measure is 0.
   */
  lemma UnlikeSessionsCanBeSimilar(tools: seq<Name>, indicators: seq<Name>)
    ensures var s, t := [[0x41, 0x61]] + tools, [[0x42, 0x42]] + tools;
            s != t && SignaturesAreSimilar(Form(s, indicators), Form(t, indicators))
    ensures SequenceSimilarity([[0x41, 0x61]], [[0x42, 0x42]]) == 0.0
  {
    FirstToolText(0x41, 0x61, tools, indicators);
    FirstToolText(0x42, 0x42, tools, indicators);
    TradedUnitsCollide(Opening(), 0x41, 0x61, 0x42, 0x42, AfterTool(tools, indicators));
    NothingInCommon([0x41, 0x61], [0x42, 0x42], tools);
  }

  lemma NothingInCommon(a: Name, b: Name, tools: seq<Name>)
    requires a[..] != b[..]
    ensures [a] + tools != [b] + tools && SequenceSimilarity([a], [b]) == 0.0
  {
    assert ([a] + tools)[0] == a && ([b] + tools)[0] == b;
    assert [a][0] == a && [b][0] == b;
    assert Agreements([a], [b], 1) == {};
  }
}
