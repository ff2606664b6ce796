/** Flags that some steps of a run raise and others lower. */
module Latches {

  ghost predicate Follows(flags: seq<bool>, raised: seq<bool>, lowered: seq<bool>) {
    && |raised| == |lowered| && |flags| == |raised| + 1 && !flags[0]
    && forall j :: 0 <= j < |raised| ==> (flags[j + 1] <==> raised[j] || (flags[j] && !lowered[j]))
  }

  /** Raised at step j, and not lowered between there and step i. */
  ghost predicate RaisedAt(raised: seq<bool>, lowered: seq<bool>, j: nat, i: nat) {
    j < i <= |raised| == |lowered| && raised[j] && forall m :: j < m < i ==> !lowered[m]
  }

  /** A flag is up if and only if it was raised and not lowered since. */
  lemma {:induction false} Latched(flags: seq<bool>, raised: seq<bool>, lowered: seq<bool>, i: nat)
    requires Follows(flags, raised, lowered) && i <= |raised|
    ensures flags[i] <==> exists j: nat :: RaisedAt(raised, lowered, j, i)
  {
    if i > 0 {
      Latched(flags, raised, lowered, i - 1);
      if exists j: nat :: RaisedAt(raised, lowered, j, i) {
        var j: nat :| RaisedAt(raised, lowered, j, i);
        assert j < i - 1 ==> RaisedAt(raised, lowered, j, i - 1);
      }
      if flags[i] {
        if raised[i - 1] {
          assert RaisedAt(raised, lowered, i - 1, i);
        } else {
          var j: nat :| RaisedAt(raised, lowered, j, i - 1);
          assert RaisedAt(raised, lowered, j, i);
        }
      }
    }
  }
}
