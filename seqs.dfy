/**
  Order-preserving selection over sequences: the meaning this model gives to
  JavaScript's Array.prototype.filter, which every list method of the
  directory uses.
 */
module Seqs {

  /** The elements of s that satisfy p, in their original order. */
  function Keep<T>(s: seq<T>, p: T -> bool): (r: seq<T>)
    ensures |r| <= |s|
  {
    if s == [] then [] else (if p(s[0]) then [s[0]] else []) + Keep(s[1..], p)
  }

  /** a can be obtained from b by deleting elements (greedy matching is complete). */
  predicate IsSubsequence<T(==)>(a: seq<T>, b: seq<T>)
  {
    if a == [] then true
    else if b == [] then false
    else if a[0] == b[0] then IsSubsequence(a[1..], b[1..])
    else IsSubsequence(a, b[1..])
  }

  /** Keep drops exactly the elements that fail p. */
  lemma {:induction false} KeepMembership<T>(s: seq<T>, p: T -> bool, x: T)
    ensures x in Keep(s, p) <==> x in s && p(x)
  {
    if s != [] {
      KeepMembership(s[1..], p, x);
      assert x in s <==> x == s[0] || x in s[1..];
    }
  }

  /** What Keep returns is the input with some elements deleted, order intact. */
  lemma {:induction false} KeepIsSubsequence<T>(s: seq<T>, p: T -> bool)
    ensures IsSubsequence(Keep(s, p), s)
  {
    if s != [] {
      KeepIsSubsequence(s[1..], p);
      var rest := Keep(s[1..], p);
      if p(s[0]) {
        assert Keep(s, p) == [s[0]] + rest;
        assert ([s[0]] + rest)[1..] == rest;
      } else {
        assert Keep(s, p) == rest;
        if rest != [] {
          KeepMembership(s[1..], p, rest[0]);
          assert p(rest[0]);
          assert rest[0] != s[0];
        }
      }
    }
  }

  /** Keep, unfolded once on a sequence written as head and tail. */
  lemma KeepCons<T>(x: T, s: seq<T>, p: T -> bool)
    ensures Keep([x] + s, p) == (if p(x) then [x] else []) + Keep(s, p)
  {
    assert ([x] + s)[1..] == s;
  }

  /** Two selections can be applied in either order. */
  lemma {:induction false} KeepCommutes<T>(s: seq<T>, p: T -> bool, q: T -> bool)
    ensures Keep(Keep(s, p), q) == Keep(Keep(s, q), p)
  {
    if s != [] {
      KeepCommutes(s[1..], p, q);
      var x := s[0];
      if p(x) {
        KeepCons(x, Keep(s[1..], p), q);
      } else {
        assert Keep(s, p) == Keep(s[1..], p);
      }
      if q(x) {
        KeepCons(x, Keep(s[1..], q), p);
      } else {
        assert Keep(s, q) == Keep(s[1..], q);
      }
    }
  }

  /**
    The selection from y followed by a sequence whose selection is xs followed
    by that of t, when y is not selected alongside xs.
   */
  lemma KeepPastHead<T>(y: T, it: seq<T>, t: seq<T>, xs: seq<T>, p: T -> bool)
    requires Keep(it, p) == xs + Keep(t, p)
    requires xs == [] || !p(y)
    ensures Keep([y] + it, p) == xs + Keep([y] + t, p)
  {
    KeepCons(y, it, p);
    KeepCons(y, t, p);
    if p(y) {
      assert xs == [];
    } else {
      assert Keep([y] + it, p) == Keep(it, p);
    }
  }
}
