/** The normal case of one PBFT view as a distributed system: the correct nodes run the
    handlers of module Pbft, the faulty ones send whatever they like under their own names,
    and messages may be lost, repeated and reordered. */
module PbftProtocol {
  import opened Quorums
  import opened Requests
  import opened Pbft

  /** Who takes part, the segment's leaders by view, the view and the sequence numbers. */
  datatype Config = Config(correct: set<int>, faulty: set<int>, leaders: seq<int>, view: nat, sns: set<int>)

  datatype Decided = Decided(node: int, sn: int, digest: Digest, aborted: bool)

  /** The correct nodes, every message ever sent, and every decision announced. */
  datatype World = World(nodes: map<int, Instance>, net: set<Message>, decided: set<Decided>)

  /** What can happen next: a faulty node sends something, the leader proposes, a node
      receives a message, or a node leaves the view because a timer expired. */
  datatype Step =
    | Forge(message: Message)
    | Lead(node: int, sn: int, digest: Digest)
    | Deliver(node: int, message: Message, verdict: Verdict)
    | GiveUp(node: int)

  function Members(c: Config): set<int> {
    c.correct + c.faulty
  }

  ghost predicate IsConfig(c: Config) {
    c.leaders != [] && c.correct !! c.faulty
  }

  function LeaderOf(c: Config): int
    requires c.leaders != []
  {
    c.leaders[c.view % |c.leaders|]
  }

  function FaultBound(c: Config): nat {
    Faults(|Members(c)|)
  }

  function Initial(c: Config): World {
    World(map n | n in c.correct ::
            Instance(n, |Members(c)|, c.leaders, c.view, false, map sn | sn in c.sns :: EMPTY_BATCH), {}, {})
  }

  function Perform(w: World, n: int, e: Effect): World
    requires n in w.nodes
  {
    World(w.nodes[n := e.state], w.net + e.sent, w.decided + set d | d in e.decided :: Decided(n, d.sn, d.digest, d.aborted))
  }

  /** The leader goes through its sequence numbers once. */
  predicate MayLead(c: Config, s: Instance, sn: int)
    requires c.leaders != []
  {
    s.own == LeaderOf(c) && sn in s.batches && !s.batches[sn].preprepared
  }

  /** One step; a step that is not possible changes nothing. */
  function Next(c: Config, w: World, step: Step): World
    requires c.leaders != [] && forall n :: n in w.nodes ==> w.nodes[n].leaders == c.leaders
  {
    match step
    case Forge(m) => if m.sender in c.faulty then w.(net := w.net + {m}) else w
    case Lead(n, sn, digest) =>
      if n in w.nodes && MayLead(c, w.nodes[n], sn) then Perform(w, n, Propose(w.nodes[n], sn, digest)) else w
    case Deliver(n, m, verdict) =>
      if n in w.nodes && m in w.net && m.sender != n then Perform(w, n, Receive(w.nodes[n], m, verdict)) else w
    case GiveUp(n) => if n in w.nodes then Perform(w, n, LeaveView(w.nodes[n])) else w
  }

  /** The world after a run. */
  function Run(c: Config, steps: seq<Step>): (w: World)
    requires c.leaders != []
    ensures forall n :: n in w.nodes ==> w.nodes[n].leaders == c.leaders
  {
    if steps == [] then Initial(c) else Next(c, Run(c, steps[..|steps| - 1]), steps[|steps| - 1])
  }

  // ----- the invariant -----

  /** What one node's record of a sequence number rests on: messages that were sent. */
  ghost predicate BatchOk(c: Config, own: int, net: set<Message>, sn: int, b: Batch)
    requires c.leaders != []
  {
    && (b.preprepared ==> Message(LeaderOf(c), sn, Preprepare(sn, c.view, LeaderOf(c), b.digest, b.aborted)) in net)
    && (b.prepared ==> b.preprepared && |Matching(b)| >= 2 * FaultBound(c))
    && (b.committed ==> b.prepared && b.validCommits >= 2 * FaultBound(c) + 1)
    && (own in b.commitMsgs ==> b.prepared)
    && PreparesOk(c, net, sn, b)
    && CommitsOk(c, net, sn, b)
  }

  ghost predicate PreparesOk(c: Config, net: set<Message>, sn: int, b: Batch) {
    forall p :: p in b.prepareMsgs ==> Message(p, sn, Prepare(sn, c.view, b.prepareMsgs[p])) in net
  }

  /** Every commit is counted at most once, and only if it matches. */
  ghost predicate CommitsOk(c: Config, net: set<Message>, sn: int, b: Batch) {
    && b.validCommits == |Counted(b)|
    && (forall p :: p in b.commitMsgs ==>
          Message(p, sn, Commit(sn, c.view, if b.commitMsgs[p] == None then b.digest else b.commitMsgs[p].value)) in net)
    && (forall p :: p in Counted(b) ==> b.prepared)
  }

  /** What a correct node sent is what it still stands for. */
  ghost predicate SentOk(s: Instance, m: Message) {
    && m.sender == s.own && m.sn in s.batches && m.body.sn == m.sn
    && s.batches[m.sn].preprepared && m.body.digest == s.batches[m.sn].digest
    && (m.body.Commit? ==> s.batches[m.sn].prepared)
    && (m.body.Preprepare? ==> m.body.aborted == s.batches[m.sn].aborted)
  }

  ghost predicate NodeOk(c: Config, net: set<Message>, n: int, s: Instance)
    requires c.leaders != []
  {
    && s.own == n && s.nodes == |Members(c)| && s.leaders == c.leaders
    && (!s.inViewChange ==> s.view == c.view)
    && (s.inViewChange ==> s.view > 0)
    && (forall sn :: sn in s.batches ==> BatchOk(c, n, net, sn, s.batches[sn]))
  }

  ghost predicate NetOk(c: Config, w: World) {
    forall m :: m in w.net ==>
      m.sender in Members(c) && (m.sender in w.nodes ==> SentOk(w.nodes[m.sender], m))
  }

  ghost predicate DecidedOk(w: World) {
    forall d :: d in w.decided ==> d.node in w.nodes && Stands(w.nodes[d.node], Decision(d.sn, d.digest, d.aborted))
  }

  ghost predicate Stands(s: Instance, d: Decision) {
    d.sn in s.batches && s.batches[d.sn].committed && s.batches[d.sn].digest == d.digest
    && s.batches[d.sn].aborted == d.aborted
  }

  ghost predicate Inv(c: Config, w: World)
    requires c.leaders != []
  {
    && w.nodes.Keys == c.correct
    && (forall n :: n in w.nodes ==> NodeOk(c, w.net, n, w.nodes[n]))
    && NetOk(c, w)
    && DecidedOk(w)
  }

  // ----- what a handler may do -----

  /** A batch never takes back what it has said. */
  ghost predicate Keeps(b: Batch, b': Batch) {
    && (b.preprepared ==> b'.preprepared && b'.digest == b.digest && b'.aborted == b.aborted)
    && (b.prepared ==> b'.prepared)
    && (b.committed ==> b'.committed)
  }

  ghost predicate Lawful(c: Config, net: set<Message>, s: Instance, e: Effect)
    requires c.leaders != []
  {
    && NodeOk(c, net + e.sent, s.own, e.state)
    && e.state.batches.Keys == s.batches.Keys
    && (forall sn :: sn in s.batches ==> Keeps(s.batches[sn], e.state.batches[sn]))
    && (forall m :: m in e.sent ==> SentOk(e.state, m))
    && (forall d :: d in e.decided ==> Stands(e.state, d))
  }

  lemma BatchOkGrows(c: Config, own: int, net: set<Message>, net': set<Message>, sn: int, b: Batch)
    requires c.leaders != [] && BatchOk(c, own, net, sn, b) && net <= net'
    ensures BatchOk(c, own, net', sn, b)
  {
  }

  lemma QuietIsLawful(c: Config, net: set<Message>, s: Instance)
    requires c.leaders != [] && NodeOk(c, net, s.own, s)
    ensures Lawful(c, net, s, Quiet(s))
    ensures Lawful(c, net, s, LeaveView(s))
  {
    assert net + {} == net;
  }

  /** Replacing one batch, and saying so. */
  lemma PutIsLawful(c: Config, net: set<Message>, s: Instance, sn: int, b: Batch, e: Effect)
    requires c.leaders != [] && NodeOk(c, net, s.own, s) && sn in s.batches
    requires e.state == Put(s, sn, b)
    requires BatchOk(c, s.own, net + e.sent, sn, b) && Keeps(s.batches[sn], b)
    requires forall m :: m in e.sent ==> SentOk(e.state, m)
    requires forall d :: d in e.decided ==> Stands(e.state, d)
    ensures Lawful(c, net, s, e)
  {
    forall k | k in s.batches
      ensures BatchOk(c, s.own, net + e.sent, k, e.state.batches[k])
    {
      if k != sn {
        BatchOkGrows(c, s.own, net, net + e.sent, k, s.batches[k]);
      }
    }
  }

  // ----- the steps of a batch -----

  lemma TryPrepareOk(c: Config, own: int, net: set<Message>, sn: int, b: Batch, net': set<Message>)
    requires c.leaders != [] && BatchOk(c, own, net, sn, b) && net <= net'
    requires !b.prepared && IsPrepared(b, FaultBound(c)) ==> Message(own, sn, Commit(sn, c.view, b.digest)) in net'
    ensures BatchOk(c, own, net', sn, TryPrepare(b, own, FaultBound(c)))
    ensures Keeps(b, TryPrepare(b, own, FaultBound(c)))
  {
    var b1 := TryPrepare(b, own, FaultBound(c));
    assert Matching(b1) == Matching(b);
    assert Counted(b1) == Counted(b);
  }

  /** Counting marks exactly the matching commits, each once. */
  lemma CountCommitsOk(c: Config, net: set<Message>, sn: int, b: Batch)
    requires CommitsOk(c, net, sn, b) && b.prepared
    ensures CommitsOk(c, net, sn, CountCommits(b))
  {
    assert Counted(CountCommits(b)) == Counted(b) + Uncounted(b);
  }

  lemma TryCommitOk(c: Config, own: int, net: set<Message>, sn: int, b: Batch)
    requires c.leaders != [] && BatchOk(c, own, net, sn, b)
    ensures BatchOk(c, own, net, sn, TryCommit(b, FaultBound(c)))
    ensures Keeps(b, TryCommit(b, FaultBound(c)))
  {
    if !b.committed && b.prepared {
      CountCommitsOk(c, net, sn, b);
      var b1 := CountCommits(b);
      var b2 := TryCommit(b, FaultBound(c));
      assert Matching(b2) == Matching(b) && Counted(b2) == Counted(b1);
    }
  }

  /** What a batch stands for after it has made progress. */
  lemma ProgressedBatch(b: Batch, own: int, faults: nat, b2: Batch)
    requires b2 == TryCommit(TryPrepare(b, own, faults), faults)
    ensures b2.digest == b.digest && b2.aborted == b.aborted && b2.preprepared == b.preprepared
    ensures b2.prepared == TryPrepare(b, own, faults).prepared && (b2.prepared && !b.prepared ==> b2.preprepared)
  {
  }

  lemma ProgressSentOk(s: Instance, sn: int, b: Batch, sent: set<Message>, e: Effect)
    requires sn in s.batches && e == Progress(s, sn, b, sent)
    requires forall m :: m in sent ==> m.sender == s.own && m.sn == sn == m.body.sn && m.body.Prepare?
    requires forall m :: m in sent ==> b.preprepared && m.body.digest == b.digest
    ensures forall m :: m in e.sent ==> SentOk(e.state, m)
    ensures forall d :: d in e.decided ==> Stands(e.state, d)
  {
    var b2 := e.state.batches[sn];
    ProgressedBatch(b, s.own, Faults(s.nodes), b2);
    forall m | m in e.sent
      ensures SentOk(e.state, m)
    {
      if m !in sent {
        assert m == Message(s.own, sn, Commit(sn, s.view, b.digest));
      }
    }
  }

  lemma ProgressIsLawful(c: Config, net: set<Message>, s: Instance, sn: int, b: Batch, sent: set<Message>)
    requires c.leaders != [] && NodeOk(c, net, s.own, s) && sn in s.batches && !s.inViewChange
    requires BatchOk(c, s.own, net + sent, sn, b) && Keeps(s.batches[sn], b) && b.committed == s.batches[sn].committed
    requires forall m :: m in sent ==> m.sender == s.own && m.sn == sn == m.body.sn && m.body.Prepare?
    requires forall m :: m in sent ==> b.preprepared && m.body.digest == b.digest
    ensures Lawful(c, net, s, Progress(s, sn, b, sent))
  {
    var e := Progress(s, sn, b, sent);
    var b1 := TryPrepare(b, s.own, Faults(s.nodes));
    TryPrepareOk(c, s.own, net + sent, sn, b, net + e.sent);
    TryCommitOk(c, s.own, net + e.sent, sn, b1);
    ProgressSentOk(s, sn, b, sent, e);
    PutIsLawful(c, net, s, sn, TryCommit(b1, Faults(s.nodes)), e);
  }

  // ----- the handlers -----

  lemma PreprepareIsLawful(c: Config, net: set<Message>, s: Instance, m: Message, verdict: Verdict)
    requires c.leaders != [] && NodeOk(c, net, s.own, s) && m in net && m.body.Preprepare?
    ensures Lawful(c, net, s, HandlePreprepare(s, m, verdict))
  {
    QuietIsLawful(c, net, s);
    var e := HandlePreprepare(s, m, verdict);
    if m.sn in s.batches && e == Accept(s, m.sn, m.body.digest, m.body.aborted) && e != Quiet(s) && e != LeaveView(s) {
      AcceptIsLawful(c, net, s, m.sn, m.body.digest, m.body.aborted);
    }
  }

  lemma NothingCounted(c: Config, own: int, net: set<Message>, sn: int, b: Batch)
    requires c.leaders != [] && BatchOk(c, own, net, sn, b) && !b.preprepared
    ensures Counted(b) == {}
    ensures forall p :: p in b.commitMsgs ==> b.commitMsgs[p].Some?
  {
    forall p | p in b.commitMsgs
      ensures p !in Counted(b) && b.commitMsgs[p].Some?
    {
    }
  }

  lemma AcceptIsLawful(c: Config, net: set<Message>, s: Instance, sn: int, digest: Digest, aborted: bool)
    requires c.leaders != [] && NodeOk(c, net, s.own, s) && sn in s.batches && !s.inViewChange
    requires !s.batches[sn].preprepared
    requires Message(LeaderOf(c), sn, Preprepare(sn, c.view, LeaderOf(c), digest, aborted)) in net
    ensures Lawful(c, net, s, Accept(s, sn, digest, aborted))
  {
    var b1 := Prepared(s.batches[sn], s.own, digest, aborted);
    NothingCounted(c, s.own, net, sn, s.batches[sn]);
    assert Counted(b1) == Counted(s.batches[sn]);
    ProgressIsLawful(c, net, s, sn, b1, {Message(s.own, sn, Prepare(sn, s.view, digest))});
  }

  lemma PrepareIsLawful(c: Config, net: set<Message>, s: Instance, m: Message)
    requires c.leaders != [] && NodeOk(c, net, s.own, s) && m in net && m.body.Prepare?
    ensures Lawful(c, net, s, HandlePrepare(s, m))
  {
    QuietIsLawful(c, net, s);
    if m.sn == m.body.sn && IsCurrent(s, m.body.view) && m.sn in s.batches && m.sender !in s.batches[m.sn].prepareMsgs {
      var b := s.batches[m.sn];
      var b1 := b.(prepareMsgs := b.prepareMsgs[m.sender := m.body.digest]);
      assert Counted(b1) == Counted(b);
      Cardinality(Matching(b), Matching(b1));
      assert net + {} == net;
      ProgressIsLawful(c, net, s, m.sn, b1, {});
    }
  }

  lemma CommitIsLawful(c: Config, net: set<Message>, s: Instance, m: Message)
    requires c.leaders != [] && NodeOk(c, net, s.own, s) && m in net && m.body.Commit? && m.sender != s.own
    ensures Lawful(c, net, s, HandleCommit(s, m))
  {
    QuietIsLawful(c, net, s);
    if m.sn == m.body.sn && IsCurrent(s, m.body.view) && m.sn in s.batches && m.sender !in s.batches[m.sn].commitMsgs {
      var b := s.batches[m.sn];
      var b1 := b.(commitMsgs := b.commitMsgs[m.sender := Some(m.body.digest)]);
      var e := Committing(s, m.sn, b1);
      assert Counted(b1) == Counted(b) && Matching(b1) == Matching(b);
      assert net + {} == net;
      TryCommitOk(c, s.own, net, m.sn, b1);
      PutIsLawful(c, net, s, m.sn, TryCommit(b1, Faults(s.nodes)), e);
    }
  }

  lemma ProposeIsLawful(c: Config, net: set<Message>, s: Instance, sn: int, digest: Digest)
    requires c.leaders != [] && NodeOk(c, net, s.own, s) && MayLead(c, s, sn)
    ensures Lawful(c, net, s, Propose(s, sn, digest))
  {
    QuietIsLawful(c, net, s);
    if s.view == 0 {
      var b := s.batches[sn];
      var b1 := b.(digest := digest, aborted := false, preprepared := true);
      NothingCounted(c, s.own, net, sn, b);
      assert Counted(b1) == Counted(b);
      PutIsLawful(c, net, s, sn, b1, Propose(s, sn, digest));
    }
  }

  // ----- runs -----

  lemma PerformKeepsInv(c: Config, w: World, n: int, e: Effect)
    requires IsConfig(c) && Inv(c, w) && n in w.nodes && Lawful(c, w.net, w.nodes[n], e)
    ensures Inv(c, Perform(w, n, e))
  {
    var w' := Perform(w, n, e);
    forall k | k in w'.nodes
      ensures NodeOk(c, w'.net, k, w'.nodes[k])
    {
      if k != n {
        forall sn | sn in w.nodes[k].batches
          ensures BatchOk(c, k, w'.net, sn, w.nodes[k].batches[sn])
        {
          BatchOkGrows(c, k, w.net, w'.net, sn, w.nodes[k].batches[sn]);
        }
      }
    }
    forall m | m in w'.net
      ensures m.sender in Members(c) && (m.sender in w'.nodes ==> SentOk(w'.nodes[m.sender], m))
    {
      if m in w.net && m.sender == n {
        assert SentOk(w.nodes[n], m);
      }
    }
    forall d | d in w'.decided
      ensures d.node in w'.nodes && Stands(w'.nodes[d.node], Decision(d.sn, d.digest, d.aborted))
    {
      if d in w.decided && d.node == n {
        assert Stands(w.nodes[n], Decision(d.sn, d.digest, d.aborted));
      }
    }
  }

  lemma StepKeepsInv(c: Config, w: World, step: Step)
    requires IsConfig(c) && Inv(c, w)
    ensures Inv(c, Next(c, w, step))
  {
    match step
    case Forge(m) =>
      if m.sender in c.faulty {
        ForgeKeepsInv(c, w, m);
      }
    case Lead(n, sn, digest) =>
      if n in w.nodes && MayLead(c, w.nodes[n], sn) {
        ProposeIsLawful(c, w.net, w.nodes[n], sn, digest);
        PerformKeepsInv(c, w, n, Propose(w.nodes[n], sn, digest));
      }
    case Deliver(n, m, verdict) =>
      if n in w.nodes && m in w.net && m.sender != n {
        ReceiveIsLawful(c, w.net, w.nodes[n], m, verdict);
        PerformKeepsInv(c, w, n, Receive(w.nodes[n], m, verdict));
      }
    case GiveUp(n) =>
      if n in w.nodes {
        QuietIsLawful(c, w.net, w.nodes[n]);
        PerformKeepsInv(c, w, n, LeaveView(w.nodes[n]));
      }
  }

  lemma ReceiveIsLawful(c: Config, net: set<Message>, s: Instance, m: Message, verdict: Verdict)
    requires c.leaders != [] && NodeOk(c, net, s.own, s) && m in net && m.sender != s.own
    ensures Lawful(c, net, s, Receive(s, m, verdict))
  {
    match m.body
    case Preprepare(_, _, _, _, _) => PreprepareIsLawful(c, net, s, m, verdict);
    case Prepare(_, _, _) => PrepareIsLawful(c, net, s, m);
    case Commit(_, _, _) => CommitIsLawful(c, net, s, m);
  }

  lemma ForgeKeepsInv(c: Config, w: World, m: Message)
    requires IsConfig(c) && Inv(c, w) && m.sender in c.faulty
    ensures Inv(c, w.(net := w.net + {m}))
  {
    forall k, sn | k in w.nodes && sn in w.nodes[k].batches
      ensures BatchOk(c, k, w.net + {m}, sn, w.nodes[k].batches[sn])
    {
      BatchOkGrows(c, k, w.net, w.net + {m}, sn, w.nodes[k].batches[sn]);
    }
  }

  lemma {:induction false} RunInv(c: Config, steps: seq<Step>)
    requires IsConfig(c)
    ensures Inv(c, Run(c, steps))
  {
    if steps == [] {
      assert Counted(EMPTY_BATCH) == {};
    } else {
      RunInv(c, steps[..|steps| - 1]);
      StepKeepsInv(c, Run(c, steps[..|steps| - 1]), steps[|steps| - 1]);
    }
  }
}
