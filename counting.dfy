/**
 * `list.filter(p).length`, the count every summary card and tally on the pages computes,
 * with its reference definition as the number of matching positions.
 */
module Counting {

  /** The positions of `s` whose element satisfies `p`. */
  ghost function MatchingIndices<T>(s: seq<T>, p: T -> bool): set<nat> {
    set i: nat | i < |s| && p(s[i])
  }

  /** `s.filter(p).length`. */
  function CountWhere<T>(s: seq<T>, p: T -> bool): (n: nat)
    ensures n <= |s|
    ensures n == |MatchingIndices(s, p)|
  {
    if s == [] then 0
    else
      var rest := CountWhere(s[1..], p);
      ShiftIndices(s, p);
      (if p(s[0]) then 1 else 0) + rest
  }

  /** The matching positions of `s` are those of `s[1..]` moved one to the right, plus 0 if `s[0]` matches. */
  lemma ShiftIndices<T>(s: seq<T>, p: T -> bool)
    requires s != []
    ensures |MatchingIndices(s, p)| == (if p(s[0]) then 1 else 0) + |MatchingIndices(s[1..], p)|
  {
    var tail := MatchingIndices(s[1..], p);
    var moved := Successors(tail);
    var head: set<nat> := if p(s[0]) then {0} else {};
    forall i: nat | i in MatchingIndices(s, p) ensures i in head + moved {
      if i > 0 {
        assert s[1..][i - 1] == s[i];
        assert (i - 1) in tail;
        assert i == (i - 1) + 1;
      }
    }
    forall i: nat | i in moved ensures i in MatchingIndices(s, p) {
      var j :| j in tail && i == j + 1;
      assert s[1..][j] == s[i];
    }
    assert MatchingIndices(s, p) == head + moved;
    assert head !! moved;
    SuccessorsSize(tail);
  }

  ghost function Successors(xs: set<nat>): set<nat> {
    set i | i in xs :: i + 1
  }

  lemma SuccessorsSize(xs: set<nat>)
    ensures |Successors(xs)| == |xs|
    decreases |xs|
  {
    if xs != {} {
      var x :| x in xs;
      SuccessorsSize(xs - {x});
      forall y | y in Successors(xs) ensures y in Successors(xs - {x}) + {x + 1} {
        var j :| j in xs && y == j + 1;
        if j != x { assert j in xs - {x}; }
      }
      assert Successors(xs) == Successors(xs - {x}) + {x + 1};
      assert x + 1 !in Successors(xs - {x});
    }
  }

  /** A predicate and its negation split a list: the two counts add up to its length. */
  lemma {:induction false} CountComplement<T>(s: seq<T>, p: T -> bool, q: T -> bool)
    requires forall x :: q(x) == !p(x)
    ensures CountWhere(s, p) + CountWhere(s, q) == |s|
  {
    if s != [] {
      CountComplement(s[1..], p, q);
    }
  }

  /** Counting is additive over concatenation. */
  lemma {:induction false} CountAppend<T>(s: seq<T>, t: seq<T>, p: T -> bool)
    ensures CountWhere(s + t, p) == CountWhere(s, p) + CountWhere(t, p)
  {
    if s != [] {
      assert (s + t)[0] == s[0] && (s + t)[1..] == s[1..] + t;
      CountAppend(s[1..], t, p);
    } else {
      assert s + t == t;
    }
  }
}
