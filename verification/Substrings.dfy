/** Substring search and replacement as the Go standard library does them: the first
    occurrence from the left, and replacement by a left-to-right scan that never looks
    back at what it has already written. */
module Substrings {

  /** `p` occurs in `s` at position `i`. */
  predicate At<T(==)>(s: seq<T>, p: seq<T>, i: int) {
    0 <= i <= |s| - |p| && s[i..i + |p|] == p
  }

  ghost predicate Contains<T>(s: seq<T>, p: seq<T>) {
    exists i :: At(s, p, i)
  }

  /** strings.Index: the leftmost occurrence, or -1. */
  function Index<T(==)>(s: seq<T>, p: seq<T>): (i: int)
    ensures i >= 0 ==> At(s, p, i)
    ensures forall j :: At(s, p, j) ==> 0 <= i <= j
    ensures i == -1 <==> !Contains(s, p)
    ensures i >= -1
  {
    IndexFrom(s, p, 0)
  }

  function IndexFrom<T(==)>(s: seq<T>, p: seq<T>, from: nat): (i: int)
    ensures i == -1 || from <= i
    ensures i >= 0 ==> At(s, p, i)
    ensures forall j :: from <= j && At(s, p, j) ==> 0 <= i <= j
    decreases |s| - from
  {
    if from + |p| > |s| then -1
    else if At(s, p, from) then from
    else IndexFrom(s, p, from + 1)
  }

  /** strings.ReplaceAll for a non-empty `what`. */
  function ReplaceAll<T(==)>(s: seq<T>, what: seq<T>, with: seq<T>): seq<T>
    requires what != []
    decreases |s|
  {
    var i := Index(s, what);
    if i < 0 then s else s[..i] + with + ReplaceAll(s[i + |what|..], what, with)
  }

  function Join<T>(pieces: seq<seq<T>>, sep: seq<T>): seq<T>
    requires pieces != []
  {
    if |pieces| == 1 then pieces[0] else pieces[0] + sep + Join(pieces[1..], sep)
  }

  /** An occurrence is inside the left part, inside the right part, or across the seam. */
  lemma AtConcat<T>(a: seq<T>, b: seq<T>, p: seq<T>, i: int)
    ensures i + |p| <= |a| ==> (At(a + b, p, i) <==> At(a, p, i))
    ensures i >= |a| ==> (At(a + b, p, i) <==> At(b, p, i - |a|))
  {
    if 0 <= i && i + |p| <= |a| {
      assert (a + b)[i..i + |p|] == a[i..i + |p|];
    }
    if |a| <= i <= |a| + |b| - |p| {
      assert (a + b)[i..i + |p|] == b[i - |a|..i - |a| + |p|];
    }
  }

  /** Every element of an occurrence is an element of the text at the shifted position. */
  lemma AtElement<T>(s: seq<T>, p: seq<T>, i: int, k: int)
    requires At(s, p, i) && i <= k < i + |p|
    ensures s[k] == p[k - i] && s[k] in p
  {
    assert s[k] == s[i..i + |p|][k - i];
  }

  /** An element the pattern lacks splits the search: nothing matches across it. */
  lemma SplitAtForeign<T>(a: seq<T>, x: T, b: seq<T>, p: seq<T>)
    requires x !in p
    ensures Contains(a + [x] + b, p) <==> Contains(a, p) || Contains(b, p)
    ensures forall i :: At(a + [x] + b, p, i) ==> i + |p| <= |a| || i >= |a| + 1
  {
    var s := a + [x] + b;
    forall i | At(s, p, i) && p != []
      ensures i + |p| <= |a| || i >= |a| + 1
    {
      if i <= |a| < i + |p| {
        AtElement(s, p, i, |a|);
      }
    }
    if p == [] {
      assert At(a, p, 0) && At(s, p, 0);
    }
    assert s == a + ([x] + b);
    forall i | At(a, p, i) ensures At(s, p, i) { AtConcat(a, [x] + b, p, i); }
    forall i | At(b, p, i) ensures At(s, p, i + |a| + 1) { AtConcat(a + [x], b, p, i + |a| + 1); }
    if Contains(s, p) {
      var i :| At(s, p, i);
      if i + |p| <= |a| { AtConcat(a, [x] + b, p, i); } else if i >= |a| + 1 { AtConcat(a + [x], b, p, i); }
    }
  }

  /** A prefix without the pattern's first element adds no occurrence. */
  lemma PrefixWithout<T>(prefix: seq<T>, s: seq<T>, p: seq<T>)
    requires p != [] && p[0] !in prefix
    ensures Contains(prefix + s, p) <==> Contains(s, p)
  {
    forall i | At(prefix + s, p, i) ensures At(s, p, i - |prefix|) {
      AtElement(prefix + s, p, i, i);
      AtConcat(prefix, s, p, i);
    }
    forall i | At(s, p, i) ensures At(prefix + s, p, i + |prefix|) {
      AtConcat(prefix, s, p, i + |prefix|);
    }
  }

  /** A text lacking one element of the pattern lacks the pattern. */
  lemma LacksElement<T>(s: seq<T>, p: seq<T>, k: nat)
    requires k < |p| && p[k] !in s
    ensures !Contains(s, p)
  {
    forall i ensures !At(s, p, i) {
      if At(s, p, i) {
        AtElement(s, p, i, i + k);
      }
    }
  }
}
