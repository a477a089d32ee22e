/** What a PBFT view gets done: under a correct leader the correct nodes can always bring a
    proposal to a decision, exactly when there are enough of them and the leader is not alone. */
module PbftProgress {
  import opened Quorums
  import opened Requests
  import opened Pbft
  import opened PbftProtocol
  import opened PbftAgreement
  import opened PbftSplits

  /** A first view led by a correct node. */
  ghost predicate CorrectFirstView(c: Config) {
    IsConfig(c) && c.view == 0 && LeaderOf(c) in c.correct
  }

  /** Enough correct nodes for a quorum of commits, and one that answers the leader. */
  ghost predicate Enough(c: Config) {
    |c.correct| >= 2 * FaultBound(c) + 1 && |c.correct| >= 2
  }

  function Followers(c: Config): set<int>
    requires c.leaders != []
  {
    c.correct - {LeaderOf(c)}
  }

  /** The correct nodes of a world have not touched a sequence number. */
  ghost predicate Fresh(c: Config, w: World, sn: int) {
    w.nodes.Keys == c.correct && forall n :: n in c.correct ==> Untouched(c, w, n, sn)
  }

  // ----- the leader's own steps -----

  /** The leader has proposed and heard nothing yet. */
  ghost predicate HasLed(c: Config, w: World, n: int, sn: int, d: Digest)
  {
    && n in w.nodes && sn in w.nodes[n].batches && Active(c, w.nodes[n], n)
    && w.nodes[n].batches[sn] == EMPTY_BATCH.(digest := d, preprepared := true)
  }

  /** The leader's proposal goes out. */
  lemma LeadStep(c: Config, w: World, w': World, sn: int, d: Digest)
    requires CorrectFirstView(c) && (forall k :: k in w.nodes ==> w.nodes[k].leaders == c.leaders)
    requires Untouched(c, w, LeaderOf(c), sn) && w' == Next(c, w, Lead(LeaderOf(c), sn, d))
    ensures HasLed(c, w', LeaderOf(c), sn, d) && Proposal(c, sn, d, false) in w'.net
    ensures OnlyMoved(w, w', {LeaderOf(c)})
  {
  }

  /** The first prepare that the leader hears. */
  lemma FirstHear(c: Config, w: World, w': World, sn: int, d: Digest, p: int)
    requires c.leaders != [] && (forall k :: k in w.nodes ==> w.nodes[k].leaders == c.leaders)
    requires HasLed(c, w, LeaderOf(c), sn, d) && p != LeaderOf(c) && PrepareOf(c, sn, d, p) in w.net
    requires w' == Next(c, w, Deliver(LeaderOf(c), PrepareOf(c, sn, d, p), Acceptable))
    ensures Backs(c, w', LeaderOf(c), sn, d, false, {p}, {}) && OnlyMoved(w, w', {LeaderOf(c)})
  {
    var n, f := LeaderOf(c), FaultBound(c);
    var b0 := EMPTY_BATCH.(digest := d, preprepared := true);
    var b := b0.(prepareMsgs := b0.prepareMsgs[p := d]);
    var b2 := TryCommit(TryPrepare(b, n, f), f);
    ProgressSettles(b, n, f, b2);
    PerformSays(c, w, w', n, sn, b, b2, Progress(w.nodes[n], sn, b, {}), {});
  }

  // ----- the stages of a decision -----

  /** The proposal is out and every follower backs it. */
  ghost predicate Backed(c: Config, w: World, sn: int, d: Digest)
    requires c.leaders != []
  {
    && HasLed(c, w, LeaderOf(c), sn, d)
    && forall n :: n in Followers(c) ==> Backs(c, w, n, sn, d, false, {n}, {})
  }

  lemma Propose0(c: Config, run: seq<Step>, sn: int, d: Digest) returns (longer: seq<Step>)
    requires CorrectFirstView(c) && Fresh(c, Run(c, run), sn)
    ensures Delivers(run + [Lead(LeaderOf(c), sn, d)], longer) && Backed(c, Run(c, longer), sn, d)
  {
    var run1 := run + [Lead(LeaderOf(c), sn, d)];
    RunExtends(c, run, Lead(LeaderOf(c), sn, d));
    LeadStep(c, Run(c, run), Run(c, run1), sn, d);
    longer := AcceptAll(c, run1, Followers(c), sn, d, false);
  }

  lemma FollowersVote(c: Config, w: World, sn: int, d: Digest)
    requires c.leaders != [] && Backed(c, w, sn, d)
    ensures forall p :: p in Followers(c) ==> PrepareOf(c, sn, d, p) in w.net
  {
    forall p | p in Followers(c)
      ensures PrepareOf(c, sn, d, p) in w.net
    {
      assert Backs(c, w, p, sn, d, false, {p}, {});
    }
  }

  /** The leader hears one of its followers. */
  lemma LeaderHears(c: Config, run: seq<Step>, sn: int, d: Digest) returns (p: int, longer: seq<Step>)
    requires CorrectFirstView(c) && Enough(c) && Backed(c, Run(c, run), sn, d)
    ensures Delivers(run, longer) && OnlyMoved(Run(c, run), Run(c, longer), {LeaderOf(c)})
    ensures p in Followers(c) && Backs(c, Run(c, longer), LeaderOf(c), sn, d, false, {p}, {})
  {
    FollowersVote(c, Run(c, run), sn, d);
    assert c.correct == Followers(c) + {LeaderOf(c)};
    Inhabited(Followers(c));
    p :| p in Followers(c);
    var step := Deliver(LeaderOf(c), PrepareOf(c, sn, d, p), Acceptable);
    longer := run + [step];
    RunExtends(c, run, step);
    FirstHear(c, Run(c, run), Run(c, longer), sn, d, p);
  }

  /** The leader hears all its followers, and is ready. */
  lemma LeaderReady(c: Config, run: seq<Step>, sn: int, d: Digest) returns (longer: seq<Step>)
    requires CorrectFirstView(c) && Enough(c) && Backed(c, Run(c, run), sn, d)
    ensures Delivers(run, longer) && OnlyMoved(Run(c, run), Run(c, longer), {LeaderOf(c)})
    ensures IsReady(c, Run(c, longer), LeaderOf(c), sn, d, false)
  {
    var p, run1 := LeaderHears(c, run, sn, d);
    FollowersVote(c, Run(c, run), sn, d);
    longer := HearAll(c, run1, LeaderOf(c), sn, d, false, {p}, {}, Followers(c));
    assert {p} + Followers(c) == Followers(c) && c.correct == Followers(c) + {LeaderOf(c)};
    HeardEnough(c, Run(c, longer), LeaderOf(c), sn, d, false, Followers(c), {});
  }

  /** Then the followers hear each other. */
  lemma AllReady(c: Config, run: seq<Step>, sn: int, d: Digest) returns (longer: seq<Step>)
    requires CorrectFirstView(c) && Enough(c) && Backed(c, Run(c, run), sn, d)
    ensures Delivers(run, longer)
    ensures forall n :: n in c.correct ==> IsReady(c, Run(c, longer), n, sn, d, false)
  {
    var run1 := LeaderReady(c, run, sn, d);
    FollowersVote(c, Run(c, run), sn, d);
    forall n | n in Followers(c)
      ensures Backs(c, Run(c, run1), n, sn, d, false, {n}, {})
    {
      BacksStays(c, Run(c, run), Run(c, run1), {LeaderOf(c)}, n, sn, d, false, {n}, {});
    }
    assert c.correct == Followers(c) + {LeaderOf(c)};
    longer := PrepareAll(c, run1, Followers(c), sn, d, false, Followers(c));
    BacksStays(c, Run(c, run1), Run(c, longer), Followers(c), LeaderOf(c), sn, d, false, {}, {LeaderOf(c)});
  }

  // ----- the results -----

  /** From any point at which the correct nodes are still in the first view and have not touched
      a sequence number, the leader's proposal of any digest and deliveries alone bring every
      correct node to decide it, unsuspected. */
  lemma ProposalIsDecided(c: Config, run: seq<Step>, sn: int, d: Digest) returns (longer: seq<Step>)
    requires CorrectFirstView(c) && Enough(c) && Fresh(c, Run(c, run), sn)
    ensures Delivers(run + [Lead(LeaderOf(c), sn, d)], longer)
    ensures forall n :: n in c.correct ==> Decided(n, sn, d, false) in Run(c, longer).decided
  {
    var run1 := Propose0(c, run, sn, d);
    var run2 := AllReady(c, run1, sn, d);
    longer := DecideAll(c, run2, c.correct, sn, d, false, c.correct);
  }

  /** Whatever the faulty nodes send first. */
  lemma DecidedDespiteForgery(c: Config, forged: seq<Step>, sn: int, d: Digest) returns (longer: seq<Step>)
    requires CorrectFirstView(c) && Enough(c) && sn in c.sns && forall i :: 0 <= i < |forged| ==> forged[i].Forge?
    ensures Delivers(forged + [Lead(LeaderOf(c), sn, d)], longer)
    ensures forall n :: n in c.correct ==> Decided(n, sn, d, false) in Run(c, longer).decided
  {
    ForgeryTouchesNothing(c, forged);
    longer := ProposalIsDecided(c, forged, sn, d);
  }

  lemma {:induction false} ForgeryTouchesNothing(c: Config, forged: seq<Step>)
    requires IsConfig(c) && forall i :: 0 <= i < |forged| ==> forged[i].Forge?
    ensures Run(c, forged).nodes == Initial(c).nodes
  {
    if forged != [] {
      ForgeryTouchesNothing(c, forged[..|forged| - 1]);
    }
  }

  // ----- and only then -----

  ghost predicate NoForgery(run: seq<Step>) {
    forall i :: 0 <= i < |run| ==> !run[i].Forge?
  }

  /** Without forgery only correct nodes have spoken; a leader that is alone never decides. */
  lemma {:induction false} OnlyCorrectSpeak(c: Config, run: seq<Step>)
    requires IsConfig(c) && NoForgery(run)
    ensures forall m :: m in Run(c, run).net ==> m.sender in c.correct
    ensures |c.correct| < 2 ==> Run(c, run).decided == {}
  {
    if run != [] {
      var before := run[..|run| - 1];
      OnlyCorrectSpeak(c, before);
      RunInv(c, before);
      OneMoreSpeaks(c, Run(c, before), run[|run| - 1], Run(c, run));
    }
  }

  lemma OneMoreSpeaks(c: Config, w: World, step: Step, w': World)
    requires IsConfig(c) && Inv(c, w) && !step.Forge? && w' == Next(c, w, step)
    requires forall m :: m in w.net ==> m.sender in c.correct
    requires |c.correct| < 2 ==> w.decided == {}
    ensures forall m :: m in w'.net ==> m.sender in c.correct
    ensures |c.correct| < 2 ==> w'.decided == {}
  {
    match step
    case Lead(n, sn, digest) =>
      if n in w.nodes && MayLead(c, w.nodes[n], sn) {
        ProposeIsLawful(c, w.net, w.nodes[n], sn, digest);
        PerformSpeaks(c, w, n, Propose(w.nodes[n], sn, digest));
      }
    case Deliver(n, m, verdict) =>
      if n in w.nodes && m in w.net && m.sender != n {
        ReceiveIsLawful(c, w.net, w.nodes[n], m, verdict);
        PerformSpeaks(c, w, n, Receive(w.nodes[n], m, verdict));
        NotAlone(n, m.sender, c.correct);
      }
    case GiveUp(n) =>
      if n in w.nodes {
        QuietIsLawful(c, w.net, w.nodes[n]);
        PerformSpeaks(c, w, n, LeaveView(w.nodes[n]));
      }
  }

  lemma NotAlone(n: int, p: int, all: set<int>)
    requires n in all && p in all && n != p
    ensures |all| >= 2
  {
    Cardinality({n, p}, all);
  }

  /** A node speaks under its own name, and adds to the decisions only what it decides. */
  lemma PerformSpeaks(c: Config, w: World, n: int, e: Effect)
    requires c.leaders != [] && w.nodes.Keys == c.correct && n in w.nodes && w.nodes[n].own == n
    requires Lawful(c, w.net, w.nodes[n], e)
    requires forall m :: m in w.net ==> m.sender in c.correct
    ensures forall m :: m in Perform(w, n, e).net ==> m.sender in c.correct
    ensures e.decided == {} ==> Perform(w, n, e).decided == w.decided
  {
    forall m | m in e.sent
      ensures m.sender in c.correct
    {
      assert SentOk(e.state, m);
    }
  }

  /** Without help from a faulty node a decision takes enough correct nodes. */
  lemma DecisionTakesEnough(c: Config, run: seq<Step>, d: Decided)
    requires IsConfig(c) && NoForgery(run) && d in Run(c, run).decided
    ensures Enough(c)
  {
    OnlyCorrectSpeak(c, run);
    RunInv(c, run);
    var w := Run(c, run);
    assert Stands(w.nodes[d.node], Decision(d.sn, d.digest, d.aborted));
    CommitsCountedOnce(c, run, w, d.node, d.sn, w.nodes[d.node].batches[d.sn]);
    Cardinality(Committers(c, w.net, d.sn, d.digest), c.correct);
    Cardinality(Counted(w.nodes[d.node].batches[d.sn]), c.correct);
  }

  /** A run of the correct nodes alone in which all of them decide a digest. */
  ghost predicate Settles(c: Config, run: seq<Step>, sn: int, d: Digest)
    requires c.leaders != []
  {
    NoForgery(run) && c.correct != {} && forall n :: n in c.correct ==> Decided(n, sn, d, false) in Run(c, run).decided
  }

  /** Under a correct leader of the first view the correct nodes can decide a digest on their own
      exactly when there are 2f + 1 of them and the leader has a follower. */
  lemma DecidesExactly(c: Config, sn: int, d: Digest)
    requires CorrectFirstView(c) && sn in c.sns
    ensures (exists run :: Settles(c, run, sn, d)) <==> Enough(c)
  {
    if Enough(c) {
      var run := DecidedDespiteForgery(c, [], sn, d);
      assert Settles(c, run, sn, d);
    }
    if run :| Settles(c, run, sn, d) {
      DecisionTakesEnough(c, run, Decided(LeaderOf(c), sn, d, false));
    }
  }

  /** An instance of one node decides nothing, although it has 2f + 1 correct nodes. */
  lemma LoneLeaderNeverDecides(c: Config, run: seq<Step>, n: int)
    requires IsConfig(c) && c.correct == {n} && c.faulty == {}
    ensures |c.correct| >= 2 * FaultBound(c) + 1 && Run(c, run).decided == {}
  {
    assert Members(c) == {n};
    LoneRun(c, run, n);
  }

  lemma {:induction false} LoneRun(c: Config, run: seq<Step>, n: int)
    requires IsConfig(c) && c.correct == {n} && c.faulty == {}
    ensures Run(c, run).decided == {}
  {
    if run != [] {
      LoneRun(c, run[..|run| - 1], n);
      RunInv(c, run[..|run| - 1]);
    }
  }

  // ----- leaving the view -----

  ghost predicate HasLeft(w: World, n: int) {
    n in w.nodes && w.nodes[n].inViewChange
  }

  /** Between two worlds a node has said and decided nothing new, nor changed a batch. */
  ghost predicate IsSilent(w: World, w': World, n: int) {
    && n in w.nodes && n in w'.nodes && w'.nodes[n].batches == w.nodes[n].batches
    && (forall m :: m in w'.net && m.sender == n ==> m in w.net)
    && (forall d :: d in w'.decided && d.node == n ==> d in w.decided)
  }

  /** A node that has followed a proposal and not committed leaves when the leader's name comes
      with another one, even for the same digest. */
  lemma SecondProposalLeaves(c: Config, run: seq<Step>, n: int, sn: int, d: Digest, flag: bool, verdict: Verdict)
    requires IsConfig(c) && n in Run(c, run).nodes && n != LeaderOf(c) && !HasLeft(Run(c, run), n)
    requires sn in Run(c, run).nodes[n].batches && Proposal(c, sn, d, flag) in Run(c, run).net
    requires Run(c, run).nodes[n].batches[sn].preprepared && !Run(c, run).nodes[n].batches[sn].committed
    ensures HasLeft(Run(c, run + [Deliver(n, Proposal(c, sn, d, flag), verdict)]), n)
    ensures IsSilent(Run(c, run), Run(c, run + [Deliver(n, Proposal(c, sn, d, flag), verdict)]), n)
  {
    RunInv(c, run);
    RunExtends(c, run, Deliver(n, Proposal(c, sn, d, flag), verdict));
  }

  /** What makes a node leave the view: a proposal not sent by the leader it names, or naming one
      that is not the leader of its view; in this view, one that comes second before the commit,
      or is malformed. */
  predicate Provokes(c: Config, b: Option<Batch>, m: Message, verdict: Verdict)
    requires c.leaders != []
  {
    && m.body.Preprepare? && m.sn == m.body.sn
    && (|| m.sender != m.body.leader
        || m.body.leader != c.leaders[m.body.view % |c.leaders|]
        || (m.body.view == c.view && b.Some? && !b.value.committed && (b.value.preprepared || verdict == Malformed)))
  }

  /** A message makes a node leave exactly when it provokes it. */
  lemma LeavesExactly(c: Config, run: seq<Step>, n: int, m: Message, verdict: Verdict)
    requires IsConfig(c) && n in Run(c, run).nodes && !HasLeft(Run(c, run), n)
    requires m in Run(c, run).net && m.sender != n
    ensures var batches := Run(c, run).nodes[n].batches;
      HasLeft(Run(c, run + [Deliver(n, m, verdict)]), n)
      <==> Provokes(c, if m.sn in batches then Some(batches[m.sn]) else None, m, verdict)
  {
    RunInv(c, run);
    RunExtends(c, run, Deliver(n, m, verdict));
    var w := Run(c, run);
    ReceiveLeaves(c, w.nodes[n], m, verdict, Receive(w.nodes[n], m, verdict));
  }

  lemma ReceiveLeaves(c: Config, s: Instance, m: Message, verdict: Verdict, e: Effect)
    requires c.leaders != [] && s.leaders == c.leaders && s.view == c.view && !s.inViewChange && e == Receive(s, m, verdict)
    ensures e.state.inViewChange <==> Provokes(c, if m.sn in s.batches then Some(s.batches[m.sn]) else None, m, verdict)
  {
    if m.body.Preprepare? && m.sn in s.batches {
      var sent := {Message(s.own, m.sn, Prepare(m.sn, s.view, m.body.digest))};
      ProgressStays(s, m.sn, Prepared(s.batches[m.sn], s.own, m.body.digest, m.body.aborted), sent);
    } else if m.body.Prepare? && m.sn in s.batches {
      var b := s.batches[m.sn];
      ProgressStays(s, m.sn, b.(prepareMsgs := b.prepareMsgs[m.sender := m.body.digest]), {});
    }
  }

  lemma ProgressStays(s: Instance, sn: int, b: Batch, sent: set<Message>)
    ensures Progress(s, sn, b, sent).state.inViewChange == s.inViewChange
  {
  }

  /** A node that has left takes no further part, however the run goes on. */
  lemma {:induction false} LeftForGood(c: Config, run: seq<Step>, longer: seq<Step>, n: int)
    requires IsConfig(c) && run <= longer && HasLeft(Run(c, run), n)
    ensures HasLeft(Run(c, longer), n) && IsSilent(Run(c, run), Run(c, longer), n)
    decreases |longer|
  {
    if run != longer {
      var before := longer[..|longer| - 1];
      LeftForGood(c, run, before, n);
      RunInv(c, before);
      StaysOut(c, Run(c, before), longer[|longer| - 1], n);
    } else {
      RunInv(c, run);
    }
  }

  lemma StaysOut(c: Config, w: World, step: Step, n: int)
    requires IsConfig(c) && Inv(c, w) && HasLeft(w, n)
    ensures HasLeft(Next(c, w, step), n) && IsSilent(w, Next(c, w, step), n)
  {
    match step
    case Forge(m) =>
    case Lead(k, sn, digest) =>
      if k in w.nodes && MayLead(c, w.nodes[k], sn) {
        ProposeIsLawful(c, w.net, w.nodes[k], sn, digest);
        OthersSpeak(c, w, k, Propose(w.nodes[k], sn, digest), n);
      }
    case Deliver(k, m, verdict) =>
      if k in w.nodes && m in w.net && m.sender != k {
        ReceiveIsLawful(c, w.net, w.nodes[k], m, verdict);
        OthersSpeak(c, w, k, Receive(w.nodes[k], m, verdict), n);
      }
    case GiveUp(k) =>
      if k in w.nodes {
        QuietIsLawful(c, w.net, w.nodes[k]);
        OthersSpeak(c, w, k, LeaveView(w.nodes[k]), n);
      }
  }

  lemma OthersSpeak(c: Config, w: World, k: int, e: Effect, n: int)
    requires c.leaders != [] && k in w.nodes && w.nodes[k].own == k && Lawful(c, w.net, w.nodes[k], e) && HasLeft(w, n)
    requires k == n ==> e == Quiet(w.nodes[n]) || e == LeaveView(w.nodes[n])
    ensures HasLeft(Perform(w, k, e), n) && IsSilent(w, Perform(w, k, e), n)
  {
    forall m | m in e.sent
      ensures m.sender == k
    {
      assert SentOk(e.state, m);
    }
  }
}
