/** What members of group 0 can still bring about, from any run: a leader that a majority does
    not outrun can hand out its next GSN, and a member that a majority does not outrun can be
    elected and then hand out GSNs. */
module SequencerProgress {
  import opened Quorums
  import opened Sequencer
  import opened SequencerProtocol

  lemma RunExtends(members: set<int>, bootstrap: int, steps: seq<Step>, step: Step)
    requires bootstrap in members
    ensures Run(members, bootstrap, steps + [step]) == Next(Run(members, bootstrap, steps), step)
  {
    assert (steps + [step])[..|steps|] == steps;
  }

  lemma DeliverNext(w: World, n: int, m: Message, c: Cluster)
    requires c == w.cluster && n in c.nodes && m in c.net && Addressed(m, n)
    ensures Next(w, Deliver(n, m)) == World(Perform(c, n, Receive(c.nodes[n], |c.nodes|, m)), w.issued)
  {
    assert w.issued + [] == w.issued;
  }

  lemma DeliverExtends(members: set<int>, bootstrap: int, steps: seq<Step>, n: int, m: Message, c: Cluster)
    requires bootstrap in members && c == Run(members, bootstrap, steps).cluster
    requires n in c.nodes && m in c.net && Addressed(m, n)
    ensures Run(members, bootstrap, steps + [Deliver(n, m)])
            == World(Perform(c, n, Receive(c.nodes[n], |c.nodes|, m)), Run(members, bootstrap, steps).issued)
  {
    RunExtends(members, bootstrap, steps, Deliver(n, m));
    DeliverNext(Run(members, bootstrap, steps), n, m, c);
  }

  lemma SameSize(c: Cluster, members: set<int>)
    requires c.nodes.Keys == members
    ensures |c.nodes| == |members|
  {
  }

  // ----- a leader's block -----

  /** A leader's next GSN is at most one above its confirmed block, and an outstanding
      reservation, which it has acknowledged itself, lies above that block. */
  ghost predicate BlockFits(s: Node) {
    s.status == Leader ==>
      && s.leader == s.id && 1 <= s.nextGSN <= s.confirmedUpTo + 1
      && (s.pending > 0 ==> s.pending > s.confirmedUpTo && s.id in s.reserveAcks)
  }

  lemma RequestFits(s: Node, size: nat, recent: bool)
    requires BlockFits(s)
    ensures BlockFits(RequestReservation(s, size, recent).node)
  {
  }

  lemma VoteResponseFits(s: Node, size: nat, src: int, term: nat, granted: bool, accepted: nat)
    requires BlockFits(s)
    ensures BlockFits(HandleVoteResponse(s, size, src, term, granted, accepted).node)
  {
    var s1 := s.(votes := s.votes + {src}, voteMaxAccepted := Max(s.voteMaxAccepted, accepted), status := Leader, leader := s.id);
    var resume := Max(Max(s1.voteMaxAccepted, s1.acceptedUpTo) + 1, s1.nextGSN);
    RequestFits(s1.(nextGSN := resume, confirmedUpTo := resume - 1, pending := 0), size, false);
  }

  lemma EffectFits(w: Cluster, step: Step)
    requires Inv(w) && step.node in w.nodes && BlockFits(w.nodes[step.node])
    ensures BlockFits(EffectOf(w, step).node)
  {
    var s, size := w.nodes[step.node], |w.nodes|;
    match step
    case Timeout(_) =>
    case Beat(_) =>
    case Request(_, recent) => RequestFits(s, size, recent);
    case Obtain(_, recent) =>
      RequestFits(s, size, recent);
      if s.nextGSN <= s.confirmedUpTo {
        RequestFits(s.(nextGSN := s.nextGSN + 1), size, recent);
      }
    case Deliver(n, m) =>
      if m in w.net && Addressed(m, n) {
        assert MessageOk(w, m);
        if m.VoteResponse? {
          VoteResponseFits(s, size, m.src, m.term, m.granted, m.accepted);
        }
      }
  }

  lemma {:induction false} BlocksFit(members: set<int>, bootstrap: int, steps: seq<Step>, n: int)
    requires Group(members) && bootstrap in members && n in members
    ensures BlockFits(Run(members, bootstrap, steps).cluster.nodes[n])
  {
    if steps != [] {
      var before, step := steps[..|steps| - 1], steps[|steps| - 1];
      var c := Run(members, bootstrap, before).cluster;
      RunInv(members, bootstrap, before);
      BlocksFit(members, bootstrap, before, n);
      if step.node == n {
        EffectFits(c, step);
      }
    }
  }

  // ----- a reservation gets confirmed -----

  /** The voters are members in no newer term. */
  ghost predicate NotOutrun(c: Cluster, quorum: set<int>, term: nat) {
    forall q :: q in quorum ==> q in c.nodes && c.nodes[q].id == q && c.nodes[q].term <= term
  }

  /** The leader's block reaches its next GSN, or it waits for the answers to a reservation
      and has heard those of `heard`, not yet a majority. */
  ghost predicate Collecting(c: Cluster, n: int, term: nat, next: nat, upTo: nat, heard: set<int>) {
    && n in c.nodes && c.nodes[n].id == n && c.nodes[n].status == Leader && c.nodes[n].leader == n
    && c.nodes[n].term == term && c.nodes[n].reserveTerm == term && c.nodes[n].nextGSN == next && 0 < next <= upTo
    && (c.nodes[n].confirmedUpTo >= next
        || (c.nodes[n].pending == upTo && heard + {n} <= c.nodes[n].reserveAcks
            && |c.nodes[n].reserveAcks| <= |c.nodes| / 2 && Reserve(n, term, upTo) in c.net))
  }

  /** One member receives the reservation and the leader its answer. */
  lemma CollectOne(members: set<int>, bootstrap: int, steps: seq<Step>, n: int, term: nat, next: nat, upTo: nat,
                   heard: set<int>, q: int, quorum: set<int>) returns (longer: seq<Step>)
    requires bootstrap in members && q in quorum && q != n
    requires Collecting(Run(members, bootstrap, steps).cluster, n, term, next, upTo, heard)
    requires NotOutrun(Run(members, bootstrap, steps).cluster, quorum, term)
    ensures steps <= longer && Run(members, bootstrap, longer).issued == Run(members, bootstrap, steps).issued
    ensures Collecting(Run(members, bootstrap, longer).cluster, n, term, next, upTo, heard + {q})
    ensures NotOutrun(Run(members, bootstrap, longer).cluster, quorum, term)
  {
    var c := Run(members, bootstrap, steps).cluster;
    if c.nodes[n].confirmedUpTo >= next {
      longer := steps;
    } else {
      var ask, answer := Deliver(q, Reserve(n, term, upTo)), Deliver(n, ReserveAck(q, n, term, upTo));
      longer := steps + [ask] + [answer];
      DeliverExtends(members, bootstrap, steps, q, Reserve(n, term, upTo), c);
      var c1 := Run(members, bootstrap, steps + [ask]).cluster;
      Answers(c, c1, n, term, next, upTo, heard, q, quorum);
      DeliverExtends(members, bootstrap, steps + [ask], n, ReserveAck(q, n, term, upTo), c1);
      HearsAnswer(c1, Run(members, bootstrap, longer).cluster, n, term, next, upTo, heard, q, quorum);
    }
  }

  lemma Answers(c: Cluster, c': Cluster, n: int, term: nat, next: nat, upTo: nat, heard: set<int>, q: int, quorum: set<int>)
    requires Collecting(c, n, term, next, upTo, heard) && NotOutrun(c, quorum, term) && q in quorum && q != n
    requires c' == Perform(c, q, HandleReserve(c.nodes[q], n, term, upTo))
    ensures Collecting(c', n, term, next, upTo, heard) && NotOutrun(c', quorum, term)
    ensures ReserveAck(q, n, term, upTo) in c'.net
  {
    assert |c'.nodes| == |c.nodes|;
  }

  lemma HearsAnswer(c: Cluster, c': Cluster, n: int, term: nat, next: nat, upTo: nat, heard: set<int>, q: int, quorum: set<int>)
    requires Collecting(c, n, term, next, upTo, heard) && NotOutrun(c, quorum, term) && upTo > 0
    requires c' == Perform(c, n, HandleReserveAck(c.nodes[n], |c.nodes|, q, term, upTo))
    ensures Collecting(c', n, term, next, upTo, heard + {q}) && NotOutrun(c', quorum, term)
  {
    assert |c'.nodes| == |c.nodes|;
  }

  lemma {:induction false} CollectAll(members: set<int>, bootstrap: int, steps: seq<Step>, n: int, term: nat, next: nat,
                                      upTo: nat, heard: set<int>, rest: set<int>, quorum: set<int>) returns (longer: seq<Step>)
    requires bootstrap in members && rest <= quorum && n !in rest
    requires Collecting(Run(members, bootstrap, steps).cluster, n, term, next, upTo, heard)
    requires NotOutrun(Run(members, bootstrap, steps).cluster, quorum, term)
    ensures steps <= longer && Run(members, bootstrap, longer).issued == Run(members, bootstrap, steps).issued
    ensures Collecting(Run(members, bootstrap, longer).cluster, n, term, next, upTo, heard + rest)
    decreases rest
  {
    if rest == {} {
      longer := steps;
      assert heard + rest == heard;
    } else {
      NotEmpty(rest);
      var q :| q in rest;
      var steps1 := CollectOne(members, bootstrap, steps, n, term, next, upTo, heard, q, quorum);
      longer := CollectAll(members, bootstrap, steps1, n, term, next, upTo, heard + {q}, rest - {q}, quorum);
      assert heard + {q} + (rest - {q}) == heard + rest;
    }
  }

  /** The leader asks for a reservation, again if it has asked before. */
  lemma Ask(members: set<int>, bootstrap: int, steps: seq<Step>, n: int, s: Node) returns (longer: seq<Step>, upTo: nat)
    requires Group(members) && bootstrap in members && n in members
    requires s == Run(members, bootstrap, steps).cluster.nodes[n] && s.status == Leader
    ensures steps <= longer && Run(members, bootstrap, longer).issued == Run(members, bootstrap, steps).issued
    ensures Collecting(Run(members, bootstrap, longer).cluster, n, s.term, s.nextGSN, upTo, {})
    ensures Outcome(Run(members, bootstrap, steps).cluster, Run(members, bootstrap, longer).cluster, {n}, s.term)
    ensures Run(members, bootstrap, longer).cluster.nodes[n].id == n
  {
    var w := Run(members, bootstrap, steps);
    RunInv(members, bootstrap, steps);
    BlocksFit(members, bootstrap, steps, n);
    assert NodeOk(w.cluster, n);
    longer := steps + [Request(n, false)];
    RunExtends(members, bootstrap, steps, Request(n, false));
    QuietHistory(w, Request(n, false));
    upTo := Asks(w.cluster, Run(members, bootstrap, longer).cluster, n, s);
  }

  lemma Asks(c: Cluster, c': Cluster, n: int, s: Node) returns (upTo: nat)
    requires n in c.nodes && s == c.nodes[n] && s.id == n && s.status == Leader && s.reserveTerm == s.term && BlockFits(s)
    requires c' == Perform(c, n, RequestReservation(s, |c.nodes|, false))
    ensures Collecting(c', n, s.term, s.nextGSN, upTo, {}) && Outcome(c, c', {n}, s.term)
  {
    var s1 := RequestReservation(s, |c.nodes|, false).node;
    upTo := if s1.confirmedUpTo >= s.nextGSN then s1.confirmedUpTo else s1.pending;
    assert |c'.nodes| == |c.nodes|;
  }

  lemma EveryNode(members: set<int>, bootstrap: int, steps: seq<Step>, quorum: set<int>, term: nat)
    requires Group(members) && bootstrap in members && quorum <= members
    requires forall q :: q in quorum ==>
      Run(members, bootstrap, steps).cluster.nodes[q].term <= term
    ensures NotOutrun(Run(members, bootstrap, steps).cluster, quorum, term)
  {
    RunInv(members, bootstrap, steps);
    forall q | q in quorum
      ensures q in Run(members, bootstrap, steps).cluster.nodes && Run(members, bootstrap, steps).cluster.nodes[q].id == q
    {
      assert NodeOk(Run(members, bootstrap, steps).cluster, q);
    }
  }

  // ----- the theorem on allocation -----

  /** One more allocation than before, made by `n` in `term`, of the number `gsn`. */
  ghost predicate OneMore(w: World, w': World, n: int, term: nat, gsn: nat) {
    && |w'.issued| == |w.issued| + 1 && w.issued <= w'.issued
    && w'.issued[|w.issued|].node == n && w'.issued[|w.issued|].term == term && w'.issued[|w.issued|].gsn == gsn
  }

  /** From every run: a leader with a majority of members in no newer term can be brought, by
      delivering messages to them, to hand out its next GSN. */
  lemma LeaderCanAllocate(members: set<int>, bootstrap: int, steps: seq<Step>, n: int, quorum: set<int>, s: Node)
    returns (longer: seq<Step>)
    requires Group(members) && bootstrap in members && n in members && Majority(quorum, members)
    requires s == Run(members, bootstrap, steps).cluster.nodes[n]
    requires s.status == Leader
    requires forall q :: q in quorum ==>
      Run(members, bootstrap, steps).cluster.nodes[q].term <= s.term
    ensures steps <= longer
    ensures OneMore(Run(members, bootstrap, steps), Run(members, bootstrap, longer), n, s.term, s.nextGSN)
  {
    EveryNode(members, bootstrap, steps, quorum, s.term);
    var steps1, upTo := Ask(members, bootstrap, steps, n, s);
    assert NotOutrun(Run(members, bootstrap, steps1).cluster, quorum, s.term);
    var steps2 := CollectAll(members, bootstrap, steps1, n, s.term, s.nextGSN, upTo, {}, quorum - {n}, quorum);
    Confirms(Run(members, bootstrap, steps2).cluster, members, n, s.term, s.nextGSN, upTo, quorum);
    longer := steps2 + [Obtain(n, false)];
    RunExtends(members, bootstrap, steps2, Obtain(n, false));
    Obtains(Run(members, bootstrap, steps2), Run(members, bootstrap, longer), n, s.term, s.nextGSN);
  }

  lemma Obtains(w: World, w': World, n: int, term: nat, next: nat)
    requires n in w.cluster.nodes && w' == Next(w, Obtain(n, false))
    requires var s := w.cluster.nodes[n]; s.id == n && s.reserveTerm == term && s.nextGSN == next <= s.confirmedUpTo
    ensures OneMore(w, w', n, term, next)
  {
  }

  lemma Confirms(c: Cluster, members: set<int>, n: int, term: nat, next: nat, upTo: nat, quorum: set<int>)
    requires c.nodes.Keys == members && Majority(quorum, members)
    requires Collecting(c, n, term, next, upTo, {} + (quorum - {n}))
    ensures c.nodes[n].confirmedUpTo >= next
  {
    if c.nodes[n].confirmedUpTo < next {
      SameSize(c, members);
      assert quorum <= {} + (quorum - {n}) + {n};
      Cardinality(quorum, c.nodes[n].reserveAcks);
    }
  }

  // ----- an election is won -----

  /** The candidate has heard the votes of `heard`, or has won. */
  ghost predicate Running(c: Cluster, n: int, term: nat, heard: set<int>) {
    && n in c.nodes && c.nodes[n].id == n && c.nodes[n].term == term && VoteRequest(n, term) in c.net
    && (WonIn(c, n, term)
        || (c.nodes[n].status == Candidate && heard + {n} <= c.nodes[n].votes && |c.nodes[n].votes| <= |c.nodes| / 2))
  }

  ghost predicate WonIn(c: Cluster, n: int, term: nat) {
    n in c.nodes && c.nodes[n].status == Leader && Leads(c, term, n)
  }

  /** One voter of an older term receives the request and the candidate its vote. */
  lemma PollOne(members: set<int>, bootstrap: int, steps: seq<Step>, n: int, term: nat, heard: set<int>, q: int)
    returns (longer: seq<Step>)
    requires bootstrap in members && term > 0 && q != n
    requires Running(Run(members, bootstrap, steps).cluster, n, term, heard)
    requires NotOutrun(Run(members, bootstrap, steps).cluster, {q}, term - 1)
    ensures steps <= longer && Run(members, bootstrap, longer).issued == Run(members, bootstrap, steps).issued
    ensures Running(Run(members, bootstrap, longer).cluster, n, term, heard + {q})
    ensures Outcome(Run(members, bootstrap, steps).cluster, Run(members, bootstrap, longer).cluster, {q, n}, term)
  {
    var c := Run(members, bootstrap, steps).cluster;
    if WonIn(c, n, term) {
      longer := steps;
    } else {
      var vote := VoteResponse(q, n, term, true, c.nodes[q].acceptedUpTo);
      var steps1 := steps + [Deliver(q, VoteRequest(n, term))];
      longer := steps1 + [Deliver(n, vote)];
      DeliverExtends(members, bootstrap, steps, q, VoteRequest(n, term), c);
      var c1 := Run(members, bootstrap, steps1).cluster;
      Votes(c, c1, n, term, heard, q, vote);
      DeliverExtends(members, bootstrap, steps1, n, vote, c1);
      CountVote(c1, Run(members, bootstrap, longer).cluster, n, term, heard, vote);
    }
  }

  lemma Votes(c: Cluster, c': Cluster, n: int, term: nat, heard: set<int>, q: int, vote: Message)
    requires Running(c, n, term, heard) && !WonIn(c, n, term)
    requires q in c.nodes && q != n && c.nodes[q].id == q && c.nodes[q].term < term
    requires vote == VoteResponse(q, n, term, true, c.nodes[q].acceptedUpTo)
    requires c' == Perform(c, q, HandleVoteRequest(c.nodes[q], n, term))
    ensures Running(c', n, term, heard) && !WonIn(c', n, term) && vote in c'.net
    ensures Outcome(c, c', {q}, term)
  {
    assert |c'.nodes| == |c.nodes|;
  }

  /** Nobody but a group has moved, and those in it are in no newer term. */
  ghost predicate Outcome(c: Cluster, c': Cluster, group: set<int>, term: nat) {
    && c'.nodes.Keys == c.nodes.Keys
    && (forall k :: k in c.nodes && k !in group ==> c'.nodes[k] == c.nodes[k])
    && (forall k :: k in c.nodes && k in group && c.nodes[k].term <= term ==> c'.nodes[k].term <= term)
  }

  lemma CountVote(c: Cluster, c': Cluster, n: int, term: nat, heard: set<int>, vote: Message)
    requires Running(c, n, term, heard) && !WonIn(c, n, term) && vote.VoteResponse? && vote in c.net
    requires vote.src != n && vote.dst == n && vote.term == term && vote.granted
    requires c' == Perform(c, n, HandleVoteResponse(c.nodes[n], |c.nodes|, vote.src, term, true, vote.accepted))
    ensures Running(c', n, term, heard + {vote.src}) && Outcome(c, c', {n}, term)
  {
    var s := c.nodes[n];
    if |s.votes + {vote.src}| > |c.nodes| / 2 {
      var s' := c'.nodes[n];
      assert Win(term, n, s'.votes, s'.nextGSN) in c'.wins;
    }
    assert |c'.nodes| == |c.nodes|;
  }

  lemma {:induction false} PollAll(members: set<int>, bootstrap: int, steps: seq<Step>, n: int, term: nat, heard: set<int>,
                                   rest: set<int>) returns (longer: seq<Step>)
    requires bootstrap in members && term > 0 && n !in rest
    requires Running(Run(members, bootstrap, steps).cluster, n, term, heard)
    requires NotOutrun(Run(members, bootstrap, steps).cluster, rest, term - 1)
    ensures steps <= longer && Run(members, bootstrap, longer).issued == Run(members, bootstrap, steps).issued
    ensures Running(Run(members, bootstrap, longer).cluster, n, term, heard + rest)
    ensures Outcome(Run(members, bootstrap, steps).cluster, Run(members, bootstrap, longer).cluster, rest + {n}, term)
    decreases rest
  {
    if rest == {} {
      longer := steps;
      assert heard + rest == heard;
    } else {
      NotEmpty(rest);
      var q :| q in rest;
      assert {q} <= rest;
      var steps1 := PollOne(members, bootstrap, steps, n, term, heard, q);
      assert NotOutrun(Run(members, bootstrap, steps1).cluster, rest - {q}, term - 1);
      longer := PollAll(members, bootstrap, steps1, n, term, heard + {q}, rest - {q});
      assert heard + {q} + (rest - {q}) == heard + rest;
    }
  }

  // ----- the theorems on elections -----

  /** The member starts an election. */
  lemma Stand(members: set<int>, bootstrap: int, steps: seq<Step>, n: int, s: Node, c: Cluster) returns (longer: seq<Step>)
    requires Group(members) && bootstrap in members && |members| >= 2 && n in members
    requires c == Run(members, bootstrap, steps).cluster && s == c.nodes[n] && s.status != Leader
    ensures steps <= longer && Run(members, bootstrap, longer).issued == Run(members, bootstrap, steps).issued
    ensures Running(Run(members, bootstrap, longer).cluster, n, s.term + 1, {})
    ensures Outcome(c, Run(members, bootstrap, longer).cluster, {n}, s.term + 1)
  {
    RunInv(members, bootstrap, steps);
    assert NodeOk(c, n);
    longer := steps + [Timeout(n)];
    RunExtends(members, bootstrap, steps, Timeout(n));
    QuietHistory(Run(members, bootstrap, steps), Timeout(n));
    SameSize(c, members);
    Stands(c, Run(members, bootstrap, longer).cluster, n, s);
  }

  lemma QuietHistory(w: World, step: Step)
    requires step.node in w.cluster.nodes && !step.Obtain?
    ensures Next(w, step) == World(Perform(w.cluster, step.node, EffectOf(w.cluster, step)), w.issued)
  {
    assert w.issued + [] == w.issued;
  }

  lemma Stands(c: Cluster, c': Cluster, n: int, s: Node)
    requires n in c.nodes && s == c.nodes[n] && s.id == n && s.status != Leader && |c.nodes| >= 2
    requires c' == Perform(c, n, StartElection(s))
    ensures Running(c', n, s.term + 1, {}) && Outcome(c, c', {n}, s.term + 1)
  {
    assert |c'.nodes| == |c.nodes|;
  }

  /** From every run: a member that does not lead, with a majority of members in no newer term than
      its own, can be brought to win the next term, and the majority is then in no newer one. */
  lemma MemberCanWin(members: set<int>, bootstrap: int, steps: seq<Step>, n: int, quorum: set<int>, s: Node)
    returns (longer: seq<Step>)
    requires Group(members) && bootstrap in members && |members| >= 2 && n in members && Majority(quorum, members)
    requires s == Run(members, bootstrap, steps).cluster.nodes[n]
    requires s.status != Leader
    requires forall q :: q in quorum ==>
      Run(members, bootstrap, steps).cluster.nodes[q].term <= s.term
    ensures steps <= longer && Run(members, bootstrap, longer).issued == Run(members, bootstrap, steps).issued
    ensures WonIn(Run(members, bootstrap, longer).cluster, n, s.term + 1)
    ensures Run(members, bootstrap, longer).cluster.nodes[n].term == s.term + 1
    ensures forall q :: q in quorum ==>
      Run(members, bootstrap, longer).cluster.nodes[q].term <= s.term + 1
  {
    EveryNode(members, bootstrap, steps, quorum, s.term);
    var steps1 := Stand(members, bootstrap, steps, n, s, Run(members, bootstrap, steps).cluster);
    assert NotOutrun(Run(members, bootstrap, steps1).cluster, quorum - {n}, s.term);
    longer := PollAll(members, bootstrap, steps1, n, s.term + 1, {}, quorum - {n});
    Wins(Run(members, bootstrap, longer).cluster, members, n, s.term + 1, quorum);
  }

  lemma Wins(c: Cluster, members: set<int>, n: int, term: nat, quorum: set<int>)
    requires c.nodes.Keys == members && Majority(quorum, members) && Running(c, n, term, {} + (quorum - {n}))
    ensures WonIn(c, n, term)
  {
    if !WonIn(c, n, term) {
      SameSize(c, members);
      assert quorum <= {} + (quorum - {n}) + {n};
      Cardinality(quorum, c.nodes[n].votes);
    }
  }

  /** Fail-over. Such a member can take over and then hand out a GSN, in the next term. */
  lemma FailOver(members: set<int>, bootstrap: int, steps: seq<Step>, n: int, quorum: set<int>, s: Node)
    returns (longer: seq<Step>, gsn: nat)
    requires Group(members) && bootstrap in members && |members| >= 2 && n in members && Majority(quorum, members)
    requires s == Run(members, bootstrap, steps).cluster.nodes[n]
    requires s.status != Leader
    requires forall q :: q in quorum ==>
      Run(members, bootstrap, steps).cluster.nodes[q].term <= s.term
    ensures steps <= longer
    ensures OneMore(Run(members, bootstrap, steps), Run(members, bootstrap, longer), n, s.term + 1, gsn)
  {
    var steps1 := MemberCanWin(members, bootstrap, steps, n, quorum, s);
    var s1 := Run(members, bootstrap, steps1).cluster.nodes[n];
    longer := LeaderCanAllocate(members, bootstrap, steps1, n, quorum, s1);
    gsn := s1.nextGSN;
  }

  lemma SoleStays(c: Cluster, member: int, step: Step)
    requires Inv(c) && c.nodes.Keys == {member} && c.nodes[member].status == Leader && step.node == member
    ensures EffectOf(c, step).node.status == Leader
  {
    if step.Deliver? && step.message in c.net {
      assert MessageOk(c, step.message);
    }
  }

  /** A group of one member needs no election: the member leads in every run. */
  lemma {:induction false} SoleMemberLeads(member: int, steps: seq<Step>)
    requires member >= 0
    ensures Run({member}, member, steps).cluster.nodes[member].status == Leader
  {
    if steps != [] {
      var before, step := steps[..|steps| - 1], steps[|steps| - 1];
      SoleMemberLeads(member, before);
      RunInv({member}, member, before);
      if step.node == member {
        SoleStays(Run({member}, member, before).cluster, member, step);
      }
    }
  }

  /** A heartbeat of a leader brings every member that is in no newer term to follow it. */
  lemma HeartbeatIsFollowed(members: set<int>, bootstrap: int, steps: seq<Step>, n: int, q: int, term: nat)
    requires Group(members) && bootstrap in members && n in members && q in members && q != n
    requires var c := Run(members, bootstrap, steps).cluster;
      c.nodes[n].status == Leader && c.nodes[n].term == term && c.nodes[q].term <= term
    ensures
      var c := Run(members, bootstrap, steps + [Beat(n)] + [Deliver(q, Heartbeat(n, term))]).cluster;
      && c.nodes[q].status == Follower && c.nodes[q].leader == n
      && c.nodes[q].term == term && c.nodes[q].votedFor == n
  {
    RunInv(members, bootstrap, steps);
    assert NodeOk(Run(members, bootstrap, steps).cluster, n);
    RunExtends(members, bootstrap, steps, Beat(n));
    DeliverExtends(members, bootstrap, steps + [Beat(n)], q, Heartbeat(n, term),
                   Run(members, bootstrap, steps + [Beat(n)]).cluster);
  }
}
