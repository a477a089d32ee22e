/** Runs of a PBFT view, built step by step: a faulty leader leads groups of correct nodes to
    be prepared for, and to decide, what it likes. */
module PbftSplits {
  import opened Quorums
  import opened Requests
  import opened Pbft
  import opened PbftProtocol

  lemma RunExtends(c: Config, run: seq<Step>, step: Step)
    requires c.leaders != []
    ensures Run(c, run + [step]) == Next(c, Run(c, run), step)
  {
    assert (run + [step])[..|run|] == run;
  }

  // ----- the messages -----

  function Proposal(c: Config, sn: int, d: Digest, flag: bool): Message
    requires c.leaders != []
  {
    Message(LeaderOf(c), sn, Preprepare(sn, c.view, LeaderOf(c), d, flag))
  }

  function PrepareOf(c: Config, sn: int, d: Digest, p: int): Message {
    Message(p, sn, Prepare(sn, c.view, d))
  }

  function CommitOf(c: Config, sn: int, d: Digest, p: int): Message {
    Message(p, sn, Commit(sn, c.view, d))
  }

  // ----- a node that backs a proposal -----

  /** All that the node has heard is for its own digest. */
  ghost predicate Uniform(b: Batch) {
    && (forall p :: p in b.prepareMsgs ==> b.prepareMsgs[p] == b.digest)
    && (forall p :: p in b.commitMsgs ==> b.commitMsgs[p] == None || b.commitMsgs[p] == Some(b.digest))
  }

  /** Nothing is left to do with what the node has heard. */
  ghost predicate Settled(b: Batch, faults: nat) {
    && (IsPrepared(b, faults) ==> b.prepared)
    && (b.prepared && !b.committed ==> Uncounted(b) == {} && b.validCommits < 2 * faults + 1)
  }

  /** What the node has reached, it has said; the leader sends no prepare. */
  ghost predicate Said(c: Config, w: World, n: int, sn: int, b: Batch)
    requires c.leaders != []
  {
    && (n != LeaderOf(c) ==> PrepareOf(c, sn, b.digest, n) in w.net)
    && (b.prepared ==> n in b.commitMsgs && CommitOf(c, sn, b.digest, n) in w.net)
    && (b.committed ==> Decided(n, sn, b.digest, b.aborted) in w.decided)
  }

  ghost predicate Active(c: Config, s: Instance, n: int) {
    s.own == n && s.nodes == |Members(c)| && IsCurrent(s, c.view)
  }

  /** Node `n` backs a proposal and has heard the prepares of `heard` and the commits of `got`. */
  ghost predicate Backs(c: Config, w: World, n: int, sn: int, d: Digest, flag: bool, heard: set<int>, got: set<int>)
    requires c.leaders != []
  {
    && n in w.nodes && sn in w.nodes[n].batches && Active(c, w.nodes[n], n)
    && BacksWith(c, w, n, sn, d, flag, heard, got, w.nodes[n].batches[sn])
  }

  ghost predicate BacksWith(c: Config, w: World, n: int, sn: int, d: Digest, flag: bool, heard: set<int>, got: set<int>, b: Batch)
    requires c.leaders != []
  {
    && b.preprepared && b.digest == d && b.aborted == flag
    && Uniform(b) && Settled(b, FaultBound(c)) && Said(c, w, n, sn, b)
    && heard <= b.prepareMsgs.Keys && got <= b.commitMsgs.Keys
  }

  /** From one world to another, only nodes of a group have done anything. */
  ghost predicate OnlyMoved(w: World, w': World, group: set<int>) {
    && w'.nodes.Keys == w.nodes.Keys && w.net <= w'.net && w.decided <= w'.decided
    && forall k :: k in w.nodes && k !in group ==> w'.nodes[k] == w.nodes[k]
  }

  lemma BacksStays(c: Config, w: World, w': World, group: set<int>, n: int, sn: int, d: Digest, flag: bool,
                   heard: set<int>, got: set<int>)
    requires c.leaders != [] && Backs(c, w, n, sn, d, flag, heard, got) && OnlyMoved(w, w', group) && n !in group
    ensures Backs(c, w', n, sn, d, flag, heard, got)
  {
  }

  // ----- one step -----

  /** After a handler has gone on as far as it can, nothing is left to do. */
  lemma ProgressSettles(b: Batch, own: int, faults: nat, b2: Batch)
    requires Uniform(b) && b.preprepared && b2 == TryCommit(TryPrepare(b, own, faults), faults)
    ensures Uniform(b2) && Settled(b2, faults)
    ensures b2.prepareMsgs == b.prepareMsgs && b.commitMsgs.Keys <= b2.commitMsgs.Keys
    ensures b2.prepared && !b.prepared ==> own in b2.commitMsgs
    ensures b2 == b.(prepared := b2.prepared, committed := b2.committed, commitMsgs := b2.commitMsgs,
                     validCommits := b2.validCommits)
    ensures b.prepared ==> b2.prepared
  {
    var b1 := TryPrepare(b, own, faults);
    assert Matching(b1) == Matching(b);
    assert Uniform(b1);
    CommitSettles(b1, faults, b2);
  }

  lemma CommitSettles(b: Batch, faults: nat, b2: Batch)
    requires Uniform(b) && b.preprepared && b2 == TryCommit(b, faults)
    requires IsPrepared(b, faults) ==> b.prepared
    ensures Uniform(b2) && Settled(b2, faults)
    ensures b2.commitMsgs.Keys == b.commitMsgs.Keys
    ensures b2 == b.(committed := b2.committed, commitMsgs := b2.commitMsgs, validCommits := b2.validCommits)
  {
    assert Matching(b2) == Matching(b);
    assert !b.committed && b.prepared ==> Uncounted(CountCommits(b)) == {};
    assert !b.committed && b.prepared ==> Uncounted(b2) == Uncounted(CountCommits(b));
  }

  /** A node that has heard nothing follows the proposal. */
  lemma AcceptStep(c: Config, w: World, w': World, n: int, sn: int, d: Digest, flag: bool)
    requires c.leaders != [] && (forall k :: k in w.nodes ==> w.nodes[k].leaders == c.leaders)
    requires n in w.nodes && n != LeaderOf(c) && Active(c, w.nodes[n], n)
    requires sn in w.nodes[n].batches && w.nodes[n].batches[sn] == EMPTY_BATCH
    requires Proposal(c, sn, d, flag) in w.net
    requires w' == Next(c, w, Deliver(n, Proposal(c, sn, d, flag), Acceptable))
    ensures Backs(c, w', n, sn, d, flag, {n}, {}) && OnlyMoved(w, w', {n})
  {
    var s := w.nodes[n];
    var b := Prepared(EMPTY_BATCH, n, d, flag);
    var b2 := TryCommit(TryPrepare(b, n, FaultBound(c)), FaultBound(c));
    ProgressSettles(b, n, FaultBound(c), b2);
    PerformSays(c, w, w', n, sn, b, b2, Accept(s, sn, d, flag), {PrepareOf(c, sn, d, n)});
  }

  lemma PerformSays(c: Config, w: World, w': World, n: int, sn: int, b: Batch, b2: Batch, e: Effect, sent: set<Message>)
    requires n in w.nodes && sn in w.nodes[n].batches && Active(c, w.nodes[n], n) && w' == Perform(w, n, e)
    requires e == Progress(w.nodes[n], sn, b, sent) && b2 == TryCommit(TryPrepare(b, n, FaultBound(c)), FaultBound(c))
    ensures OnlyMoved(w, w', {n}) && w'.nodes[n] == Put(w.nodes[n], sn, b2) && sent <= w'.net
    ensures b2.prepared && !b.prepared ==> CommitOf(c, sn, b.digest, n) in w'.net
    ensures b2.committed && !b.committed ==> Decided(n, sn, b.digest, b.aborted) in w'.decided
  {
    assert b2.committed && !b.committed ==> Decision(sn, b.digest, b.aborted) in e.decided;
  }

  /** A backing node hears one more prepare. */
  lemma HearStep(c: Config, w: World, w': World, n: int, sn: int, d: Digest, flag: bool, heard: set<int>, got: set<int>, p: int)
    requires c.leaders != [] && (forall k :: k in w.nodes ==> w.nodes[k].leaders == c.leaders)
    requires Backs(c, w, n, sn, d, flag, heard, got) && p != n && PrepareOf(c, sn, d, p) in w.net
    requires w' == Next(c, w, Deliver(n, PrepareOf(c, sn, d, p), Acceptable))
    ensures Backs(c, w', n, sn, d, flag, heard + {p}, got) && OnlyMoved(w, w', {n})
  {
    var s := w.nodes[n];
    var b0 := s.batches[sn];
    if p in b0.prepareMsgs {
      QuietChangesNothing(w, n);
    } else {
      var b := b0.(prepareMsgs := b0.prepareMsgs[p := d]);
      var b2 := TryCommit(TryPrepare(b, n, FaultBound(c)), FaultBound(c));
      ProgressSettles(b, n, FaultBound(c), b2);
      PerformSays(c, w, w', n, sn, b, b2, Progress(s, sn, b, {}), {});
    }
  }

  lemma QuietChangesNothing(w: World, n: int)
    requires n in w.nodes
    ensures Perform(w, n, Quiet(w.nodes[n])) == w
  {
    assert w.nodes[n := w.nodes[n]] == w.nodes;
    assert w.net + {} == w.net;
    var none: set<Decision> := {};
    assert (set d | d in none :: Decided(n, d.sn, d.digest, d.aborted)) == {};
  }

  /** A backing node gets one more commit. */
  lemma GetStep(c: Config, w: World, w': World, n: int, sn: int, d: Digest, flag: bool, heard: set<int>, got: set<int>, p: int)
    requires c.leaders != [] && (forall k :: k in w.nodes ==> w.nodes[k].leaders == c.leaders)
    requires Backs(c, w, n, sn, d, flag, heard, got) && p != n && CommitOf(c, sn, d, p) in w.net
    requires w' == Next(c, w, Deliver(n, CommitOf(c, sn, d, p), Acceptable))
    ensures Backs(c, w', n, sn, d, flag, heard, got + {p}) && OnlyMoved(w, w', {n})
  {
    var s := w.nodes[n];
    var b0 := s.batches[sn];
    if p in b0.commitMsgs {
      QuietChangesNothing(w, n);
    } else {
      var b := b0.(commitMsgs := b0.commitMsgs[p := Some(d)]);
      assert Matching(b) == Matching(b0);
      CommitSettles(b, FaultBound(c), TryCommit(b, FaultBound(c)));
      var e := Committing(s, sn, b);
      assert TryCommit(b, FaultBound(c)).committed && !b.committed ==> Decision(sn, d, flag) in e.decided;
    }
  }

  // ----- many steps -----

  /** A run goes on by deliveries only. */
  ghost predicate Delivers(run: seq<Step>, longer: seq<Step>) {
    run <= longer && forall i :: |run| <= i < |longer| ==> longer[i].Deliver?
  }

  /** The faulty nodes send a set of messages. */
  lemma {:induction false} ForgeAll(c: Config, run: seq<Step>, msgs: set<Message>) returns (longer: seq<Step>)
    requires c.leaders != [] && forall m :: m in msgs ==> m.sender in c.faulty
    ensures Run(c, longer) == Run(c, run).(net := Run(c, run).net + msgs)
    decreases msgs
  {
    if msgs == {} {
      longer := run;
      assert Run(c, run).net + msgs == Run(c, run).net;
    } else {
      var m :| m in msgs;
      RunExtends(c, run, Forge(m));
      longer := ForgeAll(c, run + [Forge(m)], msgs - {m});
      assert Run(c, run).net + {m} + (msgs - {m}) == Run(c, run).net + msgs;
    }
  }

  ghost predicate Untouched(c: Config, w: World, n: int, sn: int) {
    n in w.nodes && Active(c, w.nodes[n], n) && sn in w.nodes[n].batches && w.nodes[n].batches[sn] == EMPTY_BATCH
  }

  /** A group of nodes that have heard nothing follows a proposal. */
  lemma {:induction false} AcceptAll(c: Config, run: seq<Step>, group: set<int>, sn: int, d: Digest, flag: bool)
    returns (longer: seq<Step>)
    requires c.leaders != [] && LeaderOf(c) !in group && Proposal(c, sn, d, flag) in Run(c, run).net
    requires forall n :: n in group ==> Untouched(c, Run(c, run), n, sn)
    ensures OnlyMoved(Run(c, run), Run(c, longer), group)
    ensures Delivers(run, longer)
    ensures forall n :: n in group ==> Backs(c, Run(c, longer), n, sn, d, flag, {n}, {})
    decreases group
  {
    if group == {} {
      longer := run;
    } else {
      NotEmpty(group);
      var n :| n in group;
      var w := Run(c, run);
      var step := Deliver(n, Proposal(c, sn, d, flag), Acceptable);
      RunExtends(c, run, step);
      AcceptStep(c, w, Run(c, run + [step]), n, sn, d, flag);
      longer := AcceptAll(c, run + [step], group - {n}, sn, d, flag);
      BacksStays(c, Run(c, run + [step]), Run(c, longer), group - {n}, n, sn, d, flag, {n}, {});
    }
  }

  /** A backing node hears the prepares of many. */
  lemma {:induction false} HearAll(c: Config, run: seq<Step>, n: int, sn: int, d: Digest, flag: bool, heard: set<int>,
                                   got: set<int>, voters: set<int>) returns (longer: seq<Step>)
    requires c.leaders != [] && Backs(c, Run(c, run), n, sn, d, flag, heard, got) && (n in voters ==> n in heard)
    requires forall p :: p in voters ==> PrepareOf(c, sn, d, p) in Run(c, run).net
    ensures Backs(c, Run(c, longer), n, sn, d, flag, heard + voters, got)
    ensures OnlyMoved(Run(c, run), Run(c, longer), {n})
    ensures Delivers(run, longer)
    decreases voters
  {
    if voters == {} {
      longer := run;
      assert heard + voters == heard;
    } else {
      NotEmpty(voters);
      var p :| p in voters;
      var run1 := run;
      if p != n {
        var step := Deliver(n, PrepareOf(c, sn, d, p), Acceptable);
        RunExtends(c, run, step);
        run1 := run + [step];
        HearStep(c, Run(c, run), Run(c, run1), n, sn, d, flag, heard, got, p);
      } else {
        assert heard + {p} == heard;
      }
      longer := HearAll(c, run1, n, sn, d, flag, heard + {p}, got, voters - {p});
      assert heard + {p} + (voters - {p}) == heard + voters;
    }
  }

  /** A backing node gets the commits of many. */
  lemma {:induction false} GetAll(c: Config, run: seq<Step>, n: int, sn: int, d: Digest, flag: bool, heard: set<int>,
                                  got: set<int>, voters: set<int>) returns (longer: seq<Step>)
    requires c.leaders != [] && Backs(c, Run(c, run), n, sn, d, flag, heard, got) && n in got
    requires forall p :: p in voters ==> CommitOf(c, sn, d, p) in Run(c, run).net
    ensures Backs(c, Run(c, longer), n, sn, d, flag, heard, got + voters)
    ensures OnlyMoved(Run(c, run), Run(c, longer), {n})
    ensures Delivers(run, longer)
    decreases voters
  {
    if voters == {} {
      longer := run;
      assert got + voters == got;
    } else {
      NotEmpty(voters);
      var p :| p in voters;
      var run1 := run;
      if p != n {
        var step := Deliver(n, CommitOf(c, sn, d, p), Acceptable);
        RunExtends(c, run, step);
        run1 := run + [step];
        GetStep(c, Run(c, run), Run(c, run1), n, sn, d, flag, heard, got, p);
      } else {
        assert got + {p} == got;
      }
      longer := GetAll(c, run1, n, sn, d, flag, heard, got + {p}, voters - {p});
      assert got + {p} + (voters - {p}) == got + voters;
    }
  }

  // ----- enough is enough -----

  lemma HeardEnough(c: Config, w: World, n: int, sn: int, d: Digest, flag: bool, heard: set<int>, got: set<int>)
    requires c.leaders != [] && Backs(c, w, n, sn, d, flag, heard, got) && |heard| >= 2 * FaultBound(c)
    ensures w.nodes[n].batches[sn].prepared && CommitOf(c, sn, d, n) in w.net
    ensures Backs(c, w, n, sn, d, flag, heard, got + {n})
  {
    var b := w.nodes[n].batches[sn];
    forall p | p in heard
      ensures p in Matching(b)
    {
    }
    Cardinality(heard, Matching(b));
  }

  lemma GotEnough(c: Config, w: World, n: int, sn: int, d: Digest, flag: bool, heard: set<int>, got: set<int>)
    requires IsConfig(c) && Inv(c, w) && Backs(c, w, n, sn, d, flag, heard, got)
    requires w.nodes[n].batches[sn].prepared && |got| >= 2 * FaultBound(c) + 1
    ensures Decided(n, sn, d, flag) in w.decided
  {
    var b := w.nodes[n].batches[sn];
    assert BatchOk(c, n, w.net, sn, b);
    if !b.committed {
      forall p | p in got
        ensures p in Counted(b)
      {
        assert p !in Uncounted(b);
      }
      Cardinality(got, Counted(b));
    }
  }

  /** A group of backing nodes hears the same prepares, enough of them to be prepared. */
  lemma {:induction false} PrepareAll(c: Config, run: seq<Step>, group: set<int>, sn: int, d: Digest, flag: bool,
                                      voters: set<int>)
    returns (longer: seq<Step>)
    requires c.leaders != [] && |voters| >= 2 * FaultBound(c)
    requires forall n :: n in group ==> Backs(c, Run(c, run), n, sn, d, flag, {n}, {})
    requires forall p :: p in voters ==> PrepareOf(c, sn, d, p) in Run(c, run).net
    ensures OnlyMoved(Run(c, run), Run(c, longer), group)
    ensures Delivers(run, longer)
    ensures forall n :: n in group ==> IsReady(c, Run(c, longer), n, sn, d, flag)
    decreases group, 1
  {
    if group == {} {
      longer := run;
    } else {
      NotEmpty(group);
      var n :| n in group;
      var run1 := HearAll(c, run, n, sn, d, flag, {n}, {}, voters);
      Cardinality(voters, {n} + voters);
      HeardEnough(c, Run(c, run1), n, sn, d, flag, {n} + voters, {});
      longer := PrepareOthers(c, run, run1, group, n, sn, d, flag, voters);
    }
  }

  /** Prepared for a digest, with its own commit sent. */
  ghost predicate IsReady(c: Config, w: World, n: int, sn: int, d: Digest, flag: bool)
    requires c.leaders != []
  {
    Backs(c, w, n, sn, d, flag, {}, {n}) && w.nodes[n].batches[sn].prepared && CommitOf(c, sn, d, n) in w.net
  }

  lemma {:induction false} PrepareOthers(c: Config, run: seq<Step>, run1: seq<Step>, group: set<int>, n: int, sn: int, d: Digest,
                                         flag: bool, voters: set<int>) returns (longer: seq<Step>)
    requires c.leaders != [] && |voters| >= 2 * FaultBound(c) && n in group
    requires forall k :: k in group ==> Backs(c, Run(c, run), k, sn, d, flag, {k}, {})
    requires forall p :: p in voters ==> PrepareOf(c, sn, d, p) in Run(c, run).net
    requires OnlyMoved(Run(c, run), Run(c, run1), {n}) && Delivers(run, run1) && IsReady(c, Run(c, run1), n, sn, d, flag)
    ensures OnlyMoved(Run(c, run), Run(c, longer), group)
    ensures Delivers(run, longer)
    ensures forall k :: k in group ==> IsReady(c, Run(c, longer), k, sn, d, flag)
    decreases group, 0
  {
    forall k | k in group - {n}
      ensures Backs(c, Run(c, run1), k, sn, d, flag, {k}, {})
    {
      BacksStays(c, Run(c, run), Run(c, run1), {n}, k, sn, d, flag, {k}, {});
    }
    longer := PrepareAll(c, run1, group - {n}, sn, d, flag, voters);
  }

  /** A ready node decides once it gets enough commits. */
  lemma DecideOne(c: Config, run: seq<Step>, n: int, sn: int, d: Digest, flag: bool, voters: set<int>) returns (longer: seq<Step>)
    requires IsConfig(c) && IsReady(c, Run(c, run), n, sn, d, flag) && |voters| >= 2 * FaultBound(c) + 1
    requires forall p :: p in voters ==> CommitOf(c, sn, d, p) in Run(c, run).net
    ensures OnlyMoved(Run(c, run), Run(c, longer), {n})
    ensures Delivers(run, longer)
    ensures Decided(n, sn, d, flag) in Run(c, longer).decided
  {
    longer := GetAll(c, run, n, sn, d, flag, {}, {n}, voters);
    RunInv(c, run);
    RunInv(c, longer);
    StaysPrepared(c, Run(c, longer), n, sn, d, flag, {n} + voters);
    Cardinality(voters, {n} + voters);
    GotEnough(c, Run(c, longer), n, sn, d, flag, {}, {n} + voters);
  }

  /** A node keeps its own commit only when prepared. */
  lemma StaysPrepared(c: Config, w: World, n: int, sn: int, d: Digest, flag: bool, got: set<int>)
    requires IsConfig(c) && Inv(c, w) && Backs(c, w, n, sn, d, flag, {}, got) && n in got
    ensures w.nodes[n].batches[sn].prepared
  {
    assert BatchOk(c, n, w.net, sn, w.nodes[n].batches[sn]);
  }

  /** Ready nodes decide, one after the other, all on the same commits. */
  lemma {:induction false} DecideAll(c: Config, run: seq<Step>, group: set<int>, sn: int, d: Digest, flag: bool, voters: set<int>)
    returns (longer: seq<Step>)
    requires IsConfig(c) && |voters| >= 2 * FaultBound(c) + 1
    requires forall n :: n in group ==> IsReady(c, Run(c, run), n, sn, d, flag)
    requires forall p :: p in voters ==> CommitOf(c, sn, d, p) in Run(c, run).net
    ensures OnlyMoved(Run(c, run), Run(c, longer), group)
    ensures Delivers(run, longer)
    ensures forall n :: n in group ==> Decided(n, sn, d, flag) in Run(c, longer).decided
    decreases group
  {
    if group == {} {
      longer := run;
    } else {
      NotEmpty(group);
      var n :| n in group;
      var run1 := DecideOne(c, run, n, sn, d, flag, voters);
      forall k | k in group - {n}
        ensures IsReady(c, Run(c, run1), k, sn, d, flag)
      {
        BacksStays(c, Run(c, run), Run(c, run1), {n}, k, sn, d, flag, {}, {k});
      }
      longer := DecideAll(c, run1, group - {n}, sn, d, flag, voters);
    }
  }
}
