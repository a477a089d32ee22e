/** What every run of a PBFT view keeps: when correct nodes can be prepared for, or decide,
    only one digest, and when also only one entry. */
module PbftAgreement {
  import opened Quorums
  import opened Requests
  import opened Pbft
  import opened PbftProtocol

  // ----- commits are counted once, and decisions were proposed -----

  /** Nodes whose commit of a digest was sent under their own name. */
  function Committers(c: Config, net: set<Message>, sn: int, digest: Digest): set<int> {
    set p | p in Members(c) && Message(p, sn, Commit(sn, c.view, digest)) in net
  }

  lemma CountedAreCommitters(c: Config, w: World, sn: int, b: Batch)
    requires NetOk(c, w) && CommitsOk(c, w.net, sn, b)
    ensures Counted(b) <= Committers(c, w.net, sn, b.digest)
  {
    forall p | p in Counted(b)
      ensures p in Committers(c, w.net, sn, b.digest)
    {
      var m := Message(p, sn, Commit(sn, c.view, b.digest));
      assert m in w.net && m.sender == p;
    }
  }

  /** Each peer's commit is counted at most once: the number of commits a node has counted is
      the number of different peers that sent a commit for its digest and were marked. */
  lemma CommitsCountedOnce(c: Config, steps: seq<Step>, w: World, n: int, sn: int, b: Batch)
    requires IsConfig(c) && w == Run(c, steps)
    requires n in w.nodes && sn in w.nodes[n].batches && b == w.nodes[n].batches[sn]
    ensures b.validCommits == |Counted(b)| && Counted(b) <= Committers(c, w.net, sn, b.digest)
    ensures b.committed ==> 2 * FaultBound(c) + 1 <= b.validCommits <= |Members(c)|
  {
    RunInv(c, steps);
    assert BatchOk(c, n, w.net, sn, b);
    CountedAreCommitters(c, w, sn, b);
    Cardinality(Counted(b), Members(c));
  }

  /** Validity. What is decided was proposed under the name of the view's leader. */
  lemma DecidedWasProposed(c: Config, steps: seq<Step>, d: Decided)
    requires IsConfig(c) && d in Run(c, steps).decided
    ensures Message(LeaderOf(c), d.sn, Preprepare(d.sn, c.view, LeaderOf(c), d.digest, d.aborted)) in Run(c, steps).net
  {
    RunInv(c, steps);
    assert Stands(Run(c, steps).nodes[d.node], Decision(d.sn, d.digest, d.aborted));
  }

  lemma CorrectLeaderProposesOnce(c: Config, w: World, sn: int, d: Digest, flag: bool, d': Digest, flag': bool)
    requires IsConfig(c) && w.nodes.Keys == c.correct && NetOk(c, w)
    requires Message(LeaderOf(c), sn, Preprepare(sn, c.view, LeaderOf(c), d, flag)) in w.net
    requires Message(LeaderOf(c), sn, Preprepare(sn, c.view, LeaderOf(c), d', flag')) in w.net
    ensures LeaderOf(c) in Members(c)
    ensures LeaderOf(c) in c.faulty || (d == d' && flag == flag')
  {
    var leader := LeaderOf(c);
    var first := Message(leader, sn, Preprepare(sn, c.view, leader, d, flag));
    var second := Message(leader, sn, Preprepare(sn, c.view, leader, d', flag'));
    assert first.sender == leader && second.sender == leader;
    if leader !in c.faulty {
      assert SentOk(w.nodes[leader], first) && SentOk(w.nodes[leader], second);
    }
  }

  // ----- backers: the correct nodes that follow a proposal -----

  predicate IsBacker(w: World, sn: int, digest: Digest, n: int) {
    n in w.nodes && sn in w.nodes[n].batches
    && w.nodes[n].batches[sn].preprepared && w.nodes[n].batches[sn].digest == digest
  }

  function Backers(w: World, sn: int, digest: Digest): set<int> {
    set n | n in w.nodes && IsBacker(w, sn, digest, n)
  }

  /** How many correct nodes a quorum needs when all the faulty ones help, and at least the
      one that reaches it. */
  function Needed(c: Config, quorum: nat): nat {
    if quorum > |c.faulty| + 1 then quorum - |c.faulty| else 1
  }

  /** Whether a faulty leader finds enough correct nodes for two quorums with nothing in common
      but faulty nodes. */
  predicate CanSplit(c: Config, quorum: nat)
    requires c.leaders != []
  {
    LeaderOf(c) in c.faulty && c.sns != {} && |c.correct| >= 2 * Needed(c, quorum)
  }

  /** The correct ones among a quorum of voters for a digest back it. */
  lemma QuorumHasBackers(c: Config, w: World, n: int, sn: int, digest: Digest, voters: set<int>, quorum: nat)
    requires IsConfig(c) && w.nodes.Keys == c.correct && IsBacker(w, sn, digest, n)
    requires voters <= Members(c) && |voters| >= quorum && voters - c.faulty <= Backers(w, sn, digest)
    ensures |Backers(w, sn, digest)| >= Needed(c, quorum)
  {
    assert voters == (voters - c.faulty) + voters * c.faulty;
    Cardinality(voters * c.faulty, c.faulty);
    Cardinality(voters - c.faulty, Backers(w, sn, digest));
    Cardinality({n}, Backers(w, sn, digest));
  }

  lemma PreparedHasBackers(c: Config, w: World, n: int, sn: int, b: Batch)
    requires IsConfig(c) && Inv(c, w) && n in w.nodes && sn in w.nodes[n].batches && b == w.nodes[n].batches[sn] && b.prepared
    ensures |Backers(w, sn, b.digest)| >= Needed(c, 2 * FaultBound(c))
  {
    assert BatchOk(c, n, w.net, sn, b);
    forall p | p in Matching(b)
      ensures p in Members(c) && (p in c.faulty || p in Backers(w, sn, b.digest))
    {
      var m := Message(p, sn, Prepare(sn, c.view, b.digest));
      assert m in w.net && m.sender == p;
    }
    QuorumHasBackers(c, w, n, sn, b.digest, Matching(b), 2 * FaultBound(c));
  }

  lemma CommittedHasBackers(c: Config, w: World, n: int, sn: int, b: Batch)
    requires IsConfig(c) && Inv(c, w) && n in w.nodes && sn in w.nodes[n].batches && b == w.nodes[n].batches[sn] && b.committed
    ensures |Backers(w, sn, b.digest)| >= Needed(c, 2 * FaultBound(c) + 1)
  {
    assert BatchOk(c, n, w.net, sn, b);
    var voters := Committers(c, w.net, sn, b.digest);
    CountedAreCommitters(c, w, sn, b);
    Cardinality(Counted(b), voters);
    forall p | p in voters - c.faulty
      ensures p in Backers(w, sn, b.digest)
    {
      var m := Message(p, sn, Commit(sn, c.view, b.digest));
      assert m in w.net && m.sender == p;
    }
    QuorumHasBackers(c, w, n, sn, b.digest, voters, 2 * FaultBound(c) + 1);
  }

  /** The backers of two digests are different nodes. */
  lemma NoRoomForTwo(c: Config, w: World, sn: int, d: Digest, d': Digest, needed: nat)
    requires w.nodes.Keys == c.correct && d != d'
    requires |Backers(w, sn, d)| >= needed && |Backers(w, sn, d')| >= needed
    ensures |c.correct| >= 2 * needed
  {
    var a, b := Backers(w, sn, d), Backers(w, sn, d');
    assert a !! b && a + b <= c.correct;
    assert |a + b| == |a| + |b|;
    Cardinality(a + b, c.correct);
  }

  // ----- when nothing can be split -----

  /** Whatever is prepared or decided was proposed, so two different digests have a faulty leader. */
  lemma TwoDigestsFaultyLeader(c: Config, w: World, m: int, n: int, sn: int, a: Batch, b: Batch)
    requires IsConfig(c) && Inv(c, w) && a.preprepared && b.preprepared && a.digest != b.digest
    requires m in w.nodes && sn in w.nodes[m].batches && a == w.nodes[m].batches[sn]
    requires n in w.nodes && sn in w.nodes[n].batches && b == w.nodes[n].batches[sn]
    ensures LeaderOf(c) in c.faulty
  {
    assert BatchOk(c, m, w.net, sn, a) && BatchOk(c, n, w.net, sn, b);
    CorrectLeaderProposesOnce(c, w, sn, a.digest, a.aborted, b.digest, b.aborted);
  }

  lemma {:induction false} OnlyTheSegment(c: Config, steps: seq<Step>, n: int)
    requires c.leaders != [] && n in Run(c, steps).nodes
    ensures Run(c, steps).nodes[n].batches.Keys == c.sns
  {
    if steps != [] {
      var before, step := steps[..|steps| - 1], steps[|steps| - 1];
      SameNumbers(c, Run(c, before), step, n);
      OnlyTheSegment(c, before, n);
    }
  }

  lemma SameNumbers(c: Config, w: World, step: Step, n: int)
    requires c.leaders != [] && forall k :: k in w.nodes ==> w.nodes[k].leaders == c.leaders
    requires n in Next(c, w, step).nodes
    ensures n in w.nodes && Next(c, w, step).nodes[n].batches.Keys == w.nodes[n].batches.Keys
  {
    match step
    case Forge(_) =>
    case Lead(_, _, _) =>
    case GiveUp(_) =>
    case Deliver(k, m, verdict) =>
      if k == n && n in w.nodes {
        ReceiveSameNumbers(w.nodes[n], m, verdict);
      }
  }

  lemma ReceiveSameNumbers(s: Instance, m: Message, verdict: Verdict)
    requires s.leaders != []
    ensures Receive(s, m, verdict).state.batches.Keys == s.batches.Keys
  {
  }

  /** Agreement. However the faulty nodes behave, the leader among them or not, and however
      messages travel, two correct nodes never decide different digests for one sequence
      number, unless a faulty leader can split the correct nodes between two commit quorums. */
  lemma Agreement(c: Config, steps: seq<Step>, a: Decided, b: Decided)
    requires IsConfig(c) && !CanSplit(c, 2 * FaultBound(c) + 1)
    requires a in Run(c, steps).decided && b in Run(c, steps).decided && a.sn == b.sn
    ensures a.digest == b.digest
  {
    RunInv(c, steps);
    var w := Run(c, steps);
    assert Stands(w.nodes[a.node], Decision(a.sn, a.digest, a.aborted));
    assert Stands(w.nodes[b.node], Decision(b.sn, b.digest, b.aborted));
    if a.digest != b.digest {
      TwoDigestsFaultyLeader(c, w, a.node, b.node, a.sn, w.nodes[a.node].batches[a.sn], w.nodes[b.node].batches[a.sn]);
      CommittedHasBackers(c, w, a.node, a.sn, w.nodes[a.node].batches[a.sn]);
      CommittedHasBackers(c, w, b.node, a.sn, w.nodes[b.node].batches[a.sn]);
      NoRoomForTwo(c, w, a.sn, a.digest, b.digest, Needed(c, 2 * FaultBound(c) + 1));
      OnlyTheSegment(c, steps, a.node);
    }
  }

  /** The case the protocol is made for. */
  lemma AgreementWithThreeFPlusOne(c: Config, steps: seq<Step>, a: Decided, b: Decided, f: nat)
    requires IsConfig(c) && |Members(c)| == 3 * f + 1 && |c.faulty| <= f
    requires a in Run(c, steps).decided && b in Run(c, steps).decided && a.sn == b.sn
    ensures a.digest == b.digest
  {
    assert |Members(c)| == |c.correct| + |c.faulty|;
    Agreement(c, steps, a, b);
  }

  /** Under a correct leader the whole entries agree, for any number of nodes and faulty nodes. */
  lemma EntriesUnderCorrectLeader(c: Config, steps: seq<Step>, a: Decided, b: Decided)
    requires IsConfig(c) && LeaderOf(c) !in c.faulty
    requires a in Run(c, steps).decided && b in Run(c, steps).decided && a.sn == b.sn
    ensures a.digest == b.digest && a.aborted == b.aborted
  {
    RunInv(c, steps);
    DecidedWasProposed(c, steps, a);
    DecidedWasProposed(c, steps, b);
    CorrectLeaderProposesOnce(c, Run(c, steps), a.sn, a.digest, a.aborted, b.digest, b.aborted);
  }

  ghost predicate OnlyForgedProposals(c: Config, net: set<Message>) {
    forall m :: m in net && m.body.Preprepare? ==> m.sender in c.faulty
  }

  lemma ReceiveProposesNothing(s: Instance, m: Message, verdict: Verdict)
    requires s.leaders != []
    ensures forall x :: x in Receive(s, m, verdict).sent ==> !x.body.Preprepare?
  {
  }

  lemma {:induction false} NoProposalsLater(c: Config, steps: seq<Step>)
    requires IsConfig(c) && c.view > 0
    ensures OnlyForgedProposals(c, Run(c, steps).net)
  {
    if steps != [] {
      var before, step := steps[..|steps| - 1], steps[|steps| - 1];
      var w := Run(c, before);
      NoProposalsLater(c, before);
      RunInv(c, before);
      match step
      case Forge(_) =>
      case GiveUp(_) =>
      case Lead(n, sn, digest) =>
        if n in w.nodes && MayLead(c, w.nodes[n], sn) {
          assert Propose(w.nodes[n], sn, digest) == Quiet(w.nodes[n]);
        }
      case Deliver(n, m, verdict) =>
        if n in w.nodes {
          ReceiveProposesNothing(w.nodes[n], m, verdict);
        }
    }
  }

  /** Fresh proposals are made in view 0 only: in the normal case of a later view, nothing is decided
      unless the leader is faulty. */
  lemma NothingDecidedLater(c: Config, steps: seq<Step>, d: Decided)
    requires IsConfig(c) && c.view > 0 && LeaderOf(c) !in c.faulty
    ensures d !in Run(c, steps).decided
  {
    if d in Run(c, steps).decided {
      DecidedWasProposed(c, steps, d);
      NoProposalsLater(c, steps);
    }
  }

  /** A node decides one entry for a sequence number. */
  lemma OneEntryPerNode(c: Config, steps: seq<Step>, a: Decided, b: Decided)
    requires IsConfig(c) && a in Run(c, steps).decided && b in Run(c, steps).decided
    requires a.sn == b.sn && a.node == b.node
    ensures a == b
  {
    RunInv(c, steps);
    assert Stands(Run(c, steps).nodes[a.node], Decision(a.sn, a.digest, a.aborted));
    assert Stands(Run(c, steps).nodes[b.node], Decision(b.sn, b.digest, b.aborted));
  }

  /** Two correct nodes are prepared for a sequence number with different digests. */
  predicate PreparedApart(w: World, m: int, n: int, sn: int) {
    && m in w.nodes && sn in w.nodes[m].batches && w.nodes[m].batches[sn].prepared
    && n in w.nodes && sn in w.nodes[n].batches && w.nodes[n].batches[sn].prepared
    && w.nodes[m].batches[sn].digest != w.nodes[n].batches[sn].digest
  }

  /** Correct nodes are prepared for one digest only, unless a faulty leader can split them
      between two sets of 2f prepares. */
  lemma PreparedTogether(c: Config, steps: seq<Step>, m: int, n: int, sn: int)
    requires IsConfig(c) && !CanSplit(c, 2 * FaultBound(c))
    ensures !PreparedApart(Run(c, steps), m, n, sn)
  {
    var w := Run(c, steps);
    if PreparedApart(w, m, n, sn) {
      RunInv(c, steps);
      var a, b := w.nodes[m].batches[sn], w.nodes[n].batches[sn];
      assert BatchOk(c, m, w.net, sn, a) && BatchOk(c, n, w.net, sn, b);
      TwoDigestsFaultyLeader(c, w, m, n, sn, a, b);
      PreparedHasBackers(c, w, m, sn, a);
      PreparedHasBackers(c, w, n, sn, b);
      NoRoomForTwo(c, w, sn, a.digest, b.digest, Needed(c, 2 * FaultBound(c)));
      OnlyTheSegment(c, steps, m);
      assert false;
    }
  }

  /** Nodes do not check that a prepare comes from a follower. Where two quorums of 2f + 1 share a
      correct node, only the leader's own prepare can set prepared nodes apart. */
  lemma LeaderSetsApart(c: Config, steps: seq<Step>, w: World, m: int, n: int, sn: int)
    requires IsConfig(c) && w == Run(c, steps) && PreparedApart(w, m, n, sn)
    requires |Members(c)| + |c.faulty| < 2 * (2 * FaultBound(c) + 1)
    ensures LeaderOf(c) in c.faulty
    ensures LeaderOf(c) in Matching(w.nodes[m].batches[sn]) || LeaderOf(c) in Matching(w.nodes[n].batches[sn])
  {
    RunInv(c, steps);
    var a, b := w.nodes[m].batches[sn], w.nodes[n].batches[sn];
    assert BatchOk(c, m, w.net, sn, a) && BatchOk(c, n, w.net, sn, b);
    CorrectLeaderProposesOnce(c, w, sn, a.digest, a.aborted, b.digest, b.aborted);
    if LeaderOf(c) !in Matching(a) && LeaderOf(c) !in Matching(b) {
      SharedFollower(c, w, sn, a, b);
    }
  }

  /** Two sets of 2f prepares, each with the leader added, share a correct node. */
  lemma SharedFollower(c: Config, w: World, sn: int, a: Batch, b: Batch)
    requires IsConfig(c) && w.nodes.Keys == c.correct && NetOk(c, w)
    requires PreparesOk(c, w.net, sn, a) && PreparesOk(c, w.net, sn, b)
    requires |Members(c)| + |c.faulty| < 2 * (2 * FaultBound(c) + 1)
    requires |Matching(a)| >= 2 * FaultBound(c) && |Matching(b)| >= 2 * FaultBound(c)
    requires LeaderOf(c) in c.faulty && LeaderOf(c) !in Matching(a) && LeaderOf(c) !in Matching(b)
    ensures a.digest == b.digest
  {
    var leader := LeaderOf(c);
    MatchingAreMembers(c, w, sn, a);
    MatchingAreMembers(c, w, sn, b);
    var p := QuorumsMeetInCorrectNode(Matching(a) + {leader}, Matching(b) + {leader}, Members(c), c.faulty);
    var first, second := Message(p, sn, Prepare(sn, c.view, a.digest)), Message(p, sn, Prepare(sn, c.view, b.digest));
    assert first in w.net && second in w.net && first.sender == p && second.sender == p;
    assert SentOk(w.nodes[p], first) && SentOk(w.nodes[p], second);
  }

  lemma MatchingAreMembers(c: Config, w: World, sn: int, b: Batch)
    requires NetOk(c, w) && PreparesOk(c, w.net, sn, b)
    ensures Matching(b) <= Members(c)
  {
    forall p | p in Matching(b)
      ensures p in Members(c)
    {
      var m := Message(p, sn, Prepare(sn, c.view, b.digest));
      assert m in w.net && m.sender == p;
    }
  }
}
