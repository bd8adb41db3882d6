/** Helpers on sequences of strings shared by the model: JavaScript's insertion-ordered `Set`
    is a sequence without duplicates, and `new Set(array)` keeps the first
    occurrence of each element. */
module Seqs {

  /** No element occurs twice. */
  predicate NoDuplicates(s: seq<string>)
  {
    forall i, j :: 0 <= i < j < |s| ==> s[i] != s[j]
  }

  /** The elements of `s` in order of first occurrence. */
  function Dedup(s: seq<string>): (r: seq<string>)
    ensures forall x :: x in r <==> x in s
    ensures NoDuplicates(r)
    ensures |r| <= |s|
  {
    if s == [] then []
    else
      var p := Dedup(s[..|s| - 1]);
      var x := s[|s| - 1];
      assert forall y :: y in s <==> y in s[..|s| - 1] || y == x;
      if x in p then p else p + [x]
  }

  /** A sequence without duplicates is its own Dedup. */
  lemma {:induction false} DedupOfDistinct(s: seq<string>)
    requires NoDuplicates(s)
    ensures Dedup(s) == s
  {
    if s != [] {
      var q := s[..|s| - 1];
      assert NoDuplicates(q);
      DedupOfDistinct(q);
      assert s[|s| - 1] !in q;
      assert q + [s[|s| - 1]] == s;
    }
  }

  /** A sequence without duplicates has as many elements as its set. */
  lemma {:induction false} DistinctCardinality(s: seq<string>)
    requires NoDuplicates(s)
    ensures |set x | x in s| == |s|
  {
    if s != [] {
      var q := s[1..];
      assert NoDuplicates(q);
      DistinctCardinality(q);
      assert (set x | x in s) == (set x | x in q) + {s[0]};
      assert s[0] !in (set x | x in q);
    }
  }

  /** `s` without the element `x` (JavaScript's `Set.delete`). */
  function Without(s: seq<string>, x: string): (r: seq<string>)
    ensures forall y :: y in r <==> y in s && y != x
    ensures NoDuplicates(s) ==> NoDuplicates(r)
    ensures x !in s ==> r == s
    ensures |r| <= |s|
  {
    if s == [] then []
    else if s[0] == x then Without(s[1..], x)
    else
      var rest := Without(s[1..], x);
      assert NoDuplicates(s) ==> s[0] !in s[1..] && s[0] !in rest;
      [s[0]] + rest
  }

  /** `s` with `x` appended unless already present (JavaScript's `Set.add`). */
  function With(s: seq<string>, x: string): (r: seq<string>)
    ensures forall y :: y in r <==> y in s || y == x
    ensures NoDuplicates(s) ==> NoDuplicates(r)
  {
    if x in s then s else s + [x]
  }
}
