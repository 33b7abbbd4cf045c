/** Filtering, searching and summing over a sequence, for the calls and loops of the modelled code that do so. */
module Sequences {
  function Filter<X>(f: X -> bool, s: seq<X>): (r: seq<X>)
    ensures |r| <= |s|
  {
    if s == [] then []
    else if f(s[|s| - 1]) then Filter(f, s[..|s| - 1]) + [s[|s| - 1]]
    else Filter(f, s[..|s| - 1])
  }

  lemma {:induction false} FilterConcat<X>(f: X -> bool, s: seq<X>, t: seq<X>)
    ensures Filter(f, s + t) == Filter(f, s) + Filter(f, t)
  {
    if t == [] {
      assert s + t == s;
    } else {
      FilterConcat(f, s, t[..|t| - 1]);
      assert (s + t)[..|s + t| - 1] == s + t[..|t| - 1];
    }
  }

  lemma {:induction false} FilterAgrees<X>(f: X -> bool, g: X -> bool, s: seq<X>)
    requires forall x | x in s :: f(x) == g(x)
    ensures Filter(f, s) == Filter(g, s)
  {
    if s != [] {
      assert forall x | x in s[..|s| - 1] :: x in s;
      FilterAgrees(f, g, s[..|s| - 1]);
    }
  }

  lemma {:induction false} FilterMembers<X(!new)>(f: X -> bool, s: seq<X>)
    ensures forall x :: x in Filter(f, s) <==> x in s && f(x)
  {
    if s != [] {
      FilterMembers(f, s[..|s| - 1]);
      assert s == s[..|s| - 1] + [s[|s| - 1]];
    }
  }

  /** `includes` on strings. */
  predicate Includes(s: string, part: string) {
    |part| <= |s| && (s[..|part|] == part || (s != "" && Includes(s[1..], part)))
  }

  predicate OccursAt(s: string, part: string, i: int) {
    0 <= i <= |s| - |part| && s[i..i + |part|] == part
  }

  lemma {:induction false} IncludesIff(s: string, part: string)
    ensures Includes(s, part) <==> exists i :: OccursAt(s, part, i)
  {
    if |part| <= |s| {
      assert OccursAt(s, part, 0) <==> s[..|part|] == part;
      if s != "" {
        IncludesIff(s[1..], part);
        if i :| OccursAt(s[1..], part, i) {
          assert s[1..][i..i + |part|] == s[i + 1..i + 1 + |part|];
          assert OccursAt(s, part, i + 1);
        }
        if i :| OccursAt(s, part, i) && i > 0 {
          assert s[1..][i - 1..i - 1 + |part|] == s[i..i + |part|];
          assert OccursAt(s[1..], part, i - 1);
        }
      }
    }
  }

  predicate Subsequence<X(==)>(s: seq<X>, t: seq<X>) {
    s == [] || (t != [] && if s[|s| - 1] == t[|t| - 1] then Subsequence(s[..|s| - 1], t[..|t| - 1])
                else Subsequence(s, t[..|t| - 1]))
  }

  lemma {:induction false} FilterIsSubsequence<X(!new)>(f: X -> bool, s: seq<X>)
    ensures Subsequence(Filter(f, s), s)
  {
    if s != [] {
      var n := |s| - 1;
      FilterIsSubsequence(f, s[..n]);
      FilterMembers(f, s[..n]);
      if !f(s[n]) && Filter(f, s[..n]) != [] {
        assert Filter(f, s[..n])[|Filter(f, s[..n])| - 1] in Filter(f, s[..n]);
      }
    }
  }

  /** What two filters keep of one element, together. */
  lemma {:induction false} FiltersCount<X(!new)>(f: X -> bool, g: X -> bool, s: seq<X>, x: X)
    ensures multiset(Filter(f, s))[x] + multiset(Filter(g, s))[x] ==
            ((if f(x) then 1 else 0) + (if g(x) then 1 else 0)) * multiset(s)[x]
  {
    if s != [] {
      var n := |s| - 1;
      FiltersCount(f, g, s[..n], x);
      assert s == s[..n] + [s[n]];
    }
  }

  function Sum<X>(f: X -> nat, s: seq<X>): nat {
    if s == [] then 0 else Sum(f, s[..|s| - 1]) + f(s[|s| - 1])
  }

  lemma {:induction false} SumIsAtLeast<X>(f: X -> nat, s: seq<X>, i: nat)
    requires i < |s|
    ensures Sum(f, s) >= f(s[i])
  {
    if i < |s| - 1 {
      SumIsAtLeast(f, s[..|s| - 1], i);
    }
  }

  /** Pointwise smaller terms have a smaller sum, and an equal one exactly when all terms are equal. */
  lemma {:induction false} SumsAgreeIff<X(!new)>(f: X -> nat, g: X -> nat, s: seq<X>)
    requires forall x :: f(x) <= g(x)
    ensures Sum(f, s) <= Sum(g, s)
    ensures Sum(f, s) == Sum(g, s) <==> forall x | x in s :: f(x) == g(x)
  {
    if s != [] {
      var n := |s| - 1;
      SumsAgreeIff(f, g, s[..n]);
      assert s == s[..n] + [s[n]];
    }
  }

  lemma {:induction false} SumIsPositiveIff<X(!new)>(f: X -> nat, s: seq<X>)
    ensures Sum(f, s) > 0 <==> exists x :: x in s && f(x) > 0
  {
    if s != [] {
      var n := |s| - 1;
      SumIsPositiveIff(f, s[..n]);
      assert s == s[..n] + [s[n]];
    }
  }
}
