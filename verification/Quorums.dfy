/** Counting arguments behind the two kinds of quorum used by the orderers. */
module Quorums {

  /** The number of faults that a membership of `nodes` is meant to tolerate. */
  function Faults(nodes: nat): nat {
    if nodes == 0 then 0 else (nodes - 1) / 3
  }

  /** A strict majority of `members`, decided the way the sequencer does: `len(q) > len(members)/2`. */
  ghost predicate Majority(q: set<int>, members: set<int>) {
    q <= members && |q| > |members| / 2
  }

  /** Subsets of the same set overlap in at least as many elements as their sizes exceed it. */
  lemma Overlap(a: set<int>, b: set<int>, all: set<int>)
    requires a <= all && b <= all
    ensures |a * b| >= |a| + |b| - |all|
  {
    assert |a + b| == |a| + |b| - |a * b|;
    Cardinality(a + b, all);
  }

  lemma {:induction false} Cardinality(a: set<int>, b: set<int>)
    requires a <= b
    ensures |a| <= |b|
  {
    assert b == a + (b - a);
  }

  lemma Inhabited(s: set<int>)
    requires |s| > 0
    ensures exists x :: x in s
  {
    assert (forall x :: x !in s) ==> s == {};
  }

  lemma NotEmpty(s: set<int>)
    requires s != {}
    ensures exists x :: x in s
  {
    assert (forall x :: x !in s) ==> s == {};
  }

  /** Any two majorities have a common member. */
  lemma MajoritiesMeet(a: set<int>, b: set<int>, members: set<int>) returns (common: int)
    requires Majority(a, members) && Majority(b, members)
    ensures common in a && common in b
  {
    Overlap(a, b, members);
    var both := a * b;
    Inhabited(both);
    common :| common in both;
  }

  /** Two quorums that together exceed the membership by more than the number of
      faulty nodes have a correct node in common. */
  lemma QuorumsMeetInCorrectNode(a: set<int>, b: set<int>, members: set<int>, faulty: set<int>)
    returns (common: int)
    requires a <= members && b <= members
    requires |a| + |b| > |members| + |faulty|
    ensures common in a && common in b && common !in faulty
  {
    Overlap(a, b, members);
    var both := a * b;
    Cardinality(both * faulty, faulty);
    assert both == (both - faulty) + both * faulty;
    Inhabited(both - faulty);
    common :| common in both - faulty;
  }
}
