/** For which memberships, leaders and faulty nodes a PBFT view keeps correct nodes together:
    the exact conditions, and short runs in which they are kept apart. */
module PbftExactness {
  import opened Quorums
  import opened Requests
  import opened Pbft
  import opened PbftProtocol
  import opened PbftAgreement
  import opened PbftSplits

  // ----- splitting the correct nodes -----

  /** All that the faulty nodes say for a proposal. */
  function Forged(c: Config, sn: int, d: Digest, flag: bool): set<Message>
    requires c.leaders != []
  {
    {Proposal(c, sn, d, flag)}
    + (set p | p in c.faulty :: PrepareOf(c, sn, d, p))
    + (set p | p in c.faulty :: CommitOf(c, sn, d, p))
  }

  /** Two groups of correct nodes and what each of them is made to believe. */
  datatype Plan = Plan(sn: int, a: set<int>, d: Digest, flag: bool, b: set<int>, d': Digest, flag': bool)

  /** Those who vote for a digest: the faulty nodes, and the group or groups that back it. */
  function VotersA(c: Config, p: Plan): set<int> {
    c.faulty + p.a + if p.d == p.d' then p.b else {}
  }

  function VotersB(c: Config, p: Plan): set<int> {
    c.faulty + p.b + if p.d == p.d' then p.a else {}
  }

  ghost predicate Feasible(c: Config, p: Plan) {
    && IsConfig(c) && LeaderOf(c) in c.faulty && p.sn in c.sns
    && p.a <= c.correct && p.b <= c.correct && p.a !! p.b
  }

  /** The faulty nodes have spoken and both groups follow their proposals. */
  ghost predicate Following(c: Config, w: World, p: Plan)
    requires c.leaders != []
  {
    && Forged(c, p.sn, p.d, p.flag) + Forged(c, p.sn, p.d', p.flag') <= w.net
    && (forall n :: n in p.a ==> Backs(c, w, n, p.sn, p.d, p.flag, {n}, {}))
    && (forall n :: n in p.b ==> Backs(c, w, n, p.sn, p.d', p.flag', {n}, {}))
  }

  lemma Speak(c: Config, p: Plan) returns (run: seq<Step>)
    requires Feasible(c, p)
    ensures Forged(c, p.sn, p.d, p.flag) + Forged(c, p.sn, p.d', p.flag') <= Run(c, run).net
    ensures forall n :: n in c.correct ==> Untouched(c, Run(c, run), n, p.sn)
  {
    run := ForgeAll(c, [], Forged(c, p.sn, p.d, p.flag) + Forged(c, p.sn, p.d', p.flag'));
    assert Run(c, []) == Initial(c);
  }

  lemma Follow(c: Config, p: Plan) returns (run: seq<Step>)
    requires Feasible(c, p)
    ensures Following(c, Run(c, run), p)
  {
    var run0 := Speak(c, p);
    var run1 := AcceptAll(c, run0, p.a, p.sn, p.d, p.flag);
    assert forall n :: n in p.b ==> Untouched(c, Run(c, run1), n, p.sn);
    run := AcceptAll(c, run1, p.b, p.sn, p.d', p.flag');
    forall n | n in p.a
      ensures Backs(c, Run(c, run), n, p.sn, p.d, p.flag, {n}, {})
    {
      BacksStays(c, Run(c, run1), Run(c, run), p.b, n, p.sn, p.d, p.flag, {n}, {});
    }
  }

  ghost predicate AllReady(c: Config, w: World, p: Plan)
    requires c.leaders != []
  {
    && Forged(c, p.sn, p.d, p.flag) + Forged(c, p.sn, p.d', p.flag') <= w.net
    && (forall n :: n in p.a ==> IsReady(c, w, n, p.sn, p.d, p.flag))
    && (forall n :: n in p.b ==> IsReady(c, w, n, p.sn, p.d', p.flag'))
  }

  lemma PreparesSent(c: Config, w: World, p: Plan)
    requires Feasible(c, p) && Following(c, w, p)
    ensures forall v :: v in VotersA(c, p) ==> PrepareOf(c, p.sn, p.d, v) in w.net
    ensures forall v :: v in VotersB(c, p) ==> PrepareOf(c, p.sn, p.d', v) in w.net
  {
    forall v | v in c.faulty
      ensures PrepareOf(c, p.sn, p.d, v) in w.net && PrepareOf(c, p.sn, p.d', v) in w.net
    {
      assert PrepareOf(c, p.sn, p.d, v) in Forged(c, p.sn, p.d, p.flag);
      assert PrepareOf(c, p.sn, p.d', v) in Forged(c, p.sn, p.d', p.flag');
    }
  }

  /** With 2f voters on each side, both groups get prepared. */
  lemma PrepareBoth(c: Config, p: Plan) returns (run: seq<Step>)
    requires Feasible(c, p)
    requires |VotersA(c, p)| >= 2 * FaultBound(c) && |VotersB(c, p)| >= 2 * FaultBound(c)
    ensures AllReady(c, Run(c, run), p)
  {
    var run0 := Follow(c, p);
    PreparesSent(c, Run(c, run0), p);
    var run1 := PrepareAll(c, run0, p.a, p.sn, p.d, p.flag, VotersA(c, p));
    forall n | n in p.b
      ensures Backs(c, Run(c, run1), n, p.sn, p.d', p.flag', {n}, {})
    {
      BacksStays(c, Run(c, run0), Run(c, run1), p.a, n, p.sn, p.d', p.flag', {n}, {});
    }
    run := PrepareAll(c, run1, p.b, p.sn, p.d', p.flag', VotersB(c, p));
    forall n | n in p.a
      ensures IsReady(c, Run(c, run), n, p.sn, p.d, p.flag)
    {
      BacksStays(c, Run(c, run1), Run(c, run), p.b, n, p.sn, p.d, p.flag, {}, {n});
    }
  }

  lemma CommitsSent(c: Config, w: World, p: Plan)
    requires Feasible(c, p) && AllReady(c, w, p)
    ensures forall v :: v in VotersA(c, p) ==> CommitOf(c, p.sn, p.d, v) in w.net
    ensures forall v :: v in VotersB(c, p) ==> CommitOf(c, p.sn, p.d', v) in w.net
  {
    forall v | v in c.faulty
      ensures CommitOf(c, p.sn, p.d, v) in w.net && CommitOf(c, p.sn, p.d', v) in w.net
    {
      assert CommitOf(c, p.sn, p.d, v) in Forged(c, p.sn, p.d, p.flag);
      assert CommitOf(c, p.sn, p.d', v) in Forged(c, p.sn, p.d', p.flag');
    }
  }

  /** With 2f + 1 voters on each side, a node of each group decides. */
  lemma DecideBoth(c: Config, p: Plan, m: int, n: int) returns (run: seq<Step>)
    requires Feasible(c, p) && m in p.a && n in p.b
    requires |VotersA(c, p)| >= 2 * FaultBound(c) + 1 && |VotersB(c, p)| >= 2 * FaultBound(c) + 1
    ensures Decided(m, p.sn, p.d, p.flag) in Run(c, run).decided
    ensures Decided(n, p.sn, p.d', p.flag') in Run(c, run).decided
  {
    var run0 := PrepareBoth(c, p);
    CommitsSent(c, Run(c, run0), p);
    var run1 := DecideOne(c, run0, m, p.sn, p.d, p.flag, VotersA(c, p));
    BacksStays(c, Run(c, run0), Run(c, run1), {m}, n, p.sn, p.d', p.flag', {}, {n});
    run := DecideOne(c, run1, n, p.sn, p.d', p.flag', VotersB(c, p));
  }

  // ----- two groups of a given size -----

  lemma {:induction false} Choose(s: set<int>, k: nat) returns (t: set<int>)
    requires k <= |s|
    ensures t <= s && |t| == k
  {
    if k == 0 {
      t := {};
    } else {
      t := Choose(s, k - 1);
      assert s == t + (s - t);
      NotEmpty(s - t);
      var x :| x in s - t;
      t := t + {x};
    }
  }

  lemma TwoGroups(c: Config, k: nat) returns (a: set<int>, b: set<int>)
    requires |c.correct| >= 2 * k
    ensures a <= c.correct && b <= c.correct && a !! b && |a| == k && |b| == k
  {
    a := Choose(c.correct, k);
    assert c.correct == a + (c.correct - a);
    b := Choose(c.correct - a, k);
  }

  /** Splitting in two halves of the needed size gives each half a quorum of voters. */
  lemma SplitPlan(c: Config, quorum: nat) returns (p: Plan)
    requires IsConfig(c) && CanSplit(c, quorum)
    ensures Feasible(c, p) && p.d != p.d' && p.a != {} && p.b != {}
    ensures |VotersA(c, p)| >= quorum && |VotersB(c, p)| >= quorum
  {
    var a, b := TwoGroups(c, Needed(c, quorum));
    NotEmpty(c.sns);
    var sn :| sn in c.sns;
    p := Plan(sn, a, 1, false, b, 2, false);
    assert VotersA(c, p) == c.faulty + a && VotersB(c, p) == c.faulty + b;
    assert a !! c.faulty && b !! c.faulty;
    assert |c.faulty + a| == |c.faulty| + |a| && |c.faulty + b| == |c.faulty| + |b|;
  }

  // ----- the exact conditions -----

  /** In every run, correct nodes decide one digest for a sequence number. */
  ghost predicate DigestsAgree(c: Config)
    requires c.leaders != []
  {
    forall steps, a, b :: a in Run(c, steps).decided && b in Run(c, steps).decided && a.sn == b.sn ==> a.digest == b.digest
  }

  /** In every run, correct nodes decide one entry for a sequence number, its flag included. */
  ghost predicate EntriesAgree(c: Config)
    requires c.leaders != []
  {
    forall steps, a, b :: a in Run(c, steps).decided && b in Run(c, steps).decided && a.sn == b.sn ==>
      a.digest == b.digest && a.aborted == b.aborted
  }

  /** In every run, correct nodes are prepared for one digest for a sequence number. */
  ghost predicate PreparedAgree(c: Config)
    requires c.leaders != []
  {
    forall steps, m, n, sn :: !PreparedApart(Run(c, steps), m, n, sn)
  }

  /** Correct nodes decide one digest in all runs exactly when no faulty leader finds two
      disjoint groups of correct nodes, each making up a commit quorum with the faulty nodes. */
  lemma AgreementExactly(c: Config)
    requires IsConfig(c)
    ensures DigestsAgree(c) <==> !CanSplit(c, 2 * FaultBound(c) + 1)
  {
    if CanSplit(c, 2 * FaultBound(c) + 1) {
      var p := SplitPlan(c, 2 * FaultBound(c) + 1);
      NotEmpty(p.a);
      NotEmpty(p.b);
      var m :| m in p.a;
      var n :| n in p.b;
      var run := DecideBoth(c, p, m, n);
      assert Decided(m, p.sn, p.d, p.flag) in Run(c, run).decided;
      assert Decided(n, p.sn, p.d', p.flag') in Run(c, run).decided;
    } else {
      forall steps, a, b | a in Run(c, steps).decided && b in Run(c, steps).decided && a.sn == b.sn
        ensures a.digest == b.digest
      {
        Agreement(c, steps, a, b);
      }
    }
  }

  /** Correct nodes are prepared for one digest in all runs exactly when no faulty leader finds
      two such groups for sets of 2f prepares. */
  lemma PreparedExactly(c: Config)
    requires IsConfig(c)
    ensures PreparedAgree(c) <==> !CanSplit(c, 2 * FaultBound(c))
  {
    if CanSplit(c, 2 * FaultBound(c)) {
      var p := SplitPlan(c, 2 * FaultBound(c));
      NotEmpty(p.a);
      NotEmpty(p.b);
      var m :| m in p.a;
      var n :| n in p.b;
      var run := PrepareBoth(c, p);
      assert IsReady(c, Run(c, run), m, p.sn, p.d, p.flag) && IsReady(c, Run(c, run), n, p.sn, p.d', p.flag');
      assert PreparedApart(Run(c, run), m, n, p.sn);
    } else {
      forall steps, m, n, sn
        ensures !PreparedApart(Run(c, steps), m, n, sn)
      {
        PreparedTogether(c, steps, m, n, sn);
      }
    }
  }

  /** A faulty leader with two correct nodes to tell different things. */
  predicate CanSplitEntries(c: Config)
    requires c.leaders != []
  {
    LeaderOf(c) in c.faulty && c.sns != {} && |c.correct| >= 2
  }

  /** Correct nodes decide one entry in all runs exactly when the leader is correct, or there is
      nothing to decide, or no two correct nodes: the digest does not cover the flag. */
  lemma EntriesExactly(c: Config)
    requires IsConfig(c)
    ensures EntriesAgree(c) <==> !CanSplitEntries(c)
  {
    if CanSplitEntries(c) {
      var m, n, run, sn := EntriesApart(c);
      assert Decided(m, sn, 1, false) in Run(c, run).decided;
      assert Decided(n, sn, 1, true) in Run(c, run).decided;
    } else {
      forall steps, a, b | a in Run(c, steps).decided && b in Run(c, steps).decided && a.sn == b.sn
        ensures a.digest == b.digest && a.aborted == b.aborted
      {
        EntriesTogether(c, steps, a, b);
      }
    }
  }

  /** All correct nodes follow one batch, half of them with the flag set. */
  lemma EntriesApart(c: Config) returns (m: int, n: int, run: seq<Step>, sn: int)
    requires IsConfig(c) && CanSplitEntries(c)
    ensures Decided(m, sn, 1, false) in Run(c, run).decided
    ensures Decided(n, sn, 1, true) in Run(c, run).decided
  {
    var a := Choose(c.correct, 1);
    var b := c.correct - a;
    assert c.correct == a + b;
    NotEmpty(c.sns);
    sn :| sn in c.sns;
    var p := Plan(sn, a, 1, false, b, 1, true);
    NotEmpty(a);
    NotEmpty(b);
    m :| m in a;
    n :| n in b;
    assert VotersA(c, p) == Members(c) == VotersB(c, p);
    run := DecideBoth(c, p, m, n);
  }

  lemma EntriesTogether(c: Config, steps: seq<Step>, a: Decided, b: Decided)
    requires IsConfig(c) && !CanSplitEntries(c)
    requires a in Run(c, steps).decided && b in Run(c, steps).decided && a.sn == b.sn
    ensures a.digest == b.digest && a.aborted == b.aborted
  {
    RunInv(c, steps);
    if LeaderOf(c) !in c.faulty {
      EntriesUnderCorrectLeader(c, steps, a, b);
    } else {
      OnlyTheSegment(c, steps, a.node);
      assert Stands(Run(c, steps).nodes[a.node], Decision(a.sn, a.digest, a.aborted));
      assert {a.node, b.node} <= c.correct;
      Cardinality({a.node, b.node}, c.correct);
      OneEntryPerNode(c, steps, a, b);
    }
  }

  // ----- what this means for the sizes of a membership -----

  /** With n = 3f + 1 and at most f faulty nodes decided digests agree; with n = 3f + 2 or
      n = 3f + 3 and f faulty nodes, the leader among them, they need not. */
  lemma AgreementBySize(c: Config, f: nat)
    requires IsConfig(c) && LeaderOf(c) in c.faulty && c.sns != {} && |c.faulty| == f
    requires 3 * f + 1 <= |Members(c)| <= 3 * f + 3
    ensures DigestsAgree(c) <==> |Members(c)| == 3 * f + 1
  {
    assert |Members(c)| == |c.correct| + |c.faulty|;
    NotEmpty(c.faulty);
    AgreementExactly(c);
  }

  /** With f faulty nodes, the leader among them, prepared nodes can be set apart at every size. */
  lemma PreparedBySize(c: Config, f: nat)
    requires IsConfig(c) && LeaderOf(c) in c.faulty && c.sns != {} && |c.faulty| == f
    requires 3 * f + 1 <= |Members(c)| <= 3 * f + 3
    ensures !PreparedAgree(c)
  {
    assert |Members(c)| == |c.correct| + |c.faulty|;
    Cardinality({LeaderOf(c)}, c.faulty);
    PreparedExactly(c);
  }
}
