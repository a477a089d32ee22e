/** Group 0 as a distributed system: every member runs the handlers of module Sequencer,
    messages may be lost, repeated and reordered, and a crashed member is one that takes
    no further step. */
module SequencerProtocol {
  import opened Quorums
  import opened Sequencer

  /** An election that was won: who voted, and the first GSN the winner may hand out. */
  datatype Win = Win(term: nat, leader: int, voters: set<int>, resume: nat)

  /** A successful allocation, with the reservation it drew from. */
  datatype Allocation = Allocation(node: int, term: nat, gsn: nat, upTo: nat)

  /** The members' states, every message ever sent, and the votes, marks and wins so far. */
  datatype Cluster = Cluster(
    nodes: map<int, Node>,
    net: set<Message>,
    ballots: set<Ballot>,
    marks: set<Mark>,
    wins: set<Win>)

  /** A group of members and the GSNs handed out in it, in the order they were. */
  datatype World = World(cluster: Cluster, issued: seq<Allocation>)

  /** What can happen next. Timeouts, heartbeats, retries and client requests come at any
      time; delivering leaves the message in `net`, so it can be delivered again. */
  datatype Step =
    | Timeout(node: int)
    | Deliver(node: int, message: Message)
    | Beat(node: int)
    | Request(node: int, recent: bool)
    | Obtain(node: int, recent: bool)

  ghost predicate Group(members: set<int>) {
    forall n :: n in members ==> n >= 0
  }

  function Initial(members: set<int>, bootstrap: int): Cluster
    requires bootstrap in members
  {
    Cluster(map n | n in members :: InitialNode(n, bootstrap), {}, {}, {}, {Win(0, bootstrap, members, 1)})
  }

  predicate Addressed(m: Message, n: int) {
    m.src != n && ((m.VoteResponse? || m.ReserveAck?) ==> m.dst == n)
  }

  function Elected(before: Node, after: Node): set<Win> {
    if before.status != Leader && after.status == Leader
    then {Win(after.term, after.id, after.votes, after.nextGSN)}
    else {}
  }

  /** Node `n` performs a handler's effect; the history is extended. */
  function Perform(w: Cluster, n: int, e: Effect): Cluster
    requires n in w.nodes
  {
    Cluster(w.nodes[n := e.node], w.net + e.sent, w.ballots + e.cast, w.marks + e.marked,
            w.wins + Elected(w.nodes[n], e.node))
  }

  /** The effect of a step at its node; nothing when a message cannot be delivered to it. */
  function EffectOf(w: Cluster, step: Step): Effect
    requires step.node in w.nodes
  {
    var s := w.nodes[step.node];
    match step
    case Timeout(_) => StartElection(s)
    case Deliver(n, m) => if m in w.net && Addressed(m, n) then Receive(s, |w.nodes|, m) else Quiet(s)
    case Beat(_) => SendHeartbeat(s)
    case Request(_, recent) => RequestReservation(s, |w.nodes|, recent)
    case Obtain(_, recent) => Allocate(s, |w.nodes|, recent).0
  }

  /** The allocation a step makes, if it is a successful one. */
  function DrawnBy(s: Node, step: Step): seq<Allocation> {
    if step.Obtain? && s.nextGSN <= s.confirmedUpTo
    then [Allocation(s.id, s.reserveTerm, s.nextGSN, s.confirmedUpTo)]
    else []
  }

  /** One step; a step that is not possible changes nothing. */
  function Next(w: World, step: Step): World {
    var c := w.cluster;
    if step.node !in c.nodes then w
    else World(Perform(c, step.node, EffectOf(c, step)), w.issued + DrawnBy(c.nodes[step.node], step))
  }

  /** What a client obtains is what is recorded: `allocateGSN` returns 0 or the drawn GSN. */
  lemma DrawnIsReturned(s: Node, size: nat, recent: bool)
    requires s.nextGSN > 0
    ensures Allocate(s, size, recent).1 == 0 <==> DrawnBy(s, Obtain(s.id, recent)) == []
    ensures Allocate(s, size, recent).1 > 0 ==> DrawnBy(s, Obtain(s.id, recent))[0].gsn == Allocate(s, size, recent).1
  {
  }

  /** The world after a run from the initial state. */
  function Run(members: set<int>, bootstrap: int, steps: seq<Step>): (w: World)
    requires bootstrap in members
    ensures w.cluster.nodes.Keys == members
  {
    if steps == [] then World(Initial(members, bootstrap), [])
    else Next(Run(members, bootstrap, steps[..|steps| - 1]), steps[|steps| - 1])
  }

  /** The members that acknowledged a leader's request to reserve up to `upTo` in `term`. */
  function Markers(w: Cluster, term: nat, upTo: nat): set<int> {
    set v | v in w.nodes.Keys && Mark(v, term, upTo) in w.marks
  }

  /** A reservation confirmed by a majority. */
  ghost predicate Confirmed(w: Cluster, term: nat, upTo: nat) {
    Majority(Markers(w, term, upTo), w.nodes.Keys)
  }

  ghost predicate Leads(w: Cluster, term: nat, n: int) {
    exists win :: win in w.wins && win.term == term && win.leader == n
  }

  ghost predicate Undecided(w: Cluster, term: nat) {
    forall win :: win in w.wins ==> win.term != term
  }

  /** `voter` voted for `candidate` and its vote carried a mark of at most `bound`. */
  ghost predicate Voted(ballots: set<Ballot>, voter: int, term: nat, candidate: int, bound: int) {
    exists b :: b in ballots && b.voter == voter && b.term == term && b.candidate == candidate && b.accepted <= bound
  }

  // ----- the invariant, in groups -----

  ghost predicate NodesOk(w: Cluster) {
    forall n :: n in w.nodes ==> NodeOk(w, n)
  }

  ghost predicate NodeOk(w: Cluster, n: int)
    requires n in w.nodes
  {
    var s := w.nodes[n];
    && n >= 0 && s.id == n && s.nextGSN >= 1
    && (s.status == Leader ==> Leads(w, s.term, n) && s.reserveTerm == s.term)
    && (s.status == Candidate ==> CandidateOk(w, n))
  }

  ghost predicate CandidateOk(w: Cluster, n: int)
    requires n in w.nodes
  {
    var s := w.nodes[n];
    && s.term >= 1
    && s.votes <= w.nodes.Keys
    && (forall v :: v in s.votes ==> Voted(w.ballots, v, s.term, n, s.voteMaxAccepted))
    && !Leads(w, s.term, n)
  }

  ghost predicate MessageOk(w: Cluster, m: Message) {
    && m.src in w.nodes
    && match m
       case VoteRequest(_, term) => term >= 1
       case VoteResponse(src, dst, term, granted, accepted) =>
         granted ==> Ballot(src, term, dst, accepted) in w.ballots
       case Reserve(_, _, upTo) => upTo > 0
       case ReserveAck(src, _, term, upTo) => Mark(src, term, upTo) in w.marks && upTo > 0
       case Heartbeat(src, term) => Leads(w, term, src)
  }

  ghost predicate NetOk(w: Cluster) {
    forall m :: m in w.net ==> MessageOk(w, m)
  }

  /** Until a term has a leader, its ballots agree with `votedFor`, hence with each other. */
  ghost predicate BallotsOk(w: Cluster) {
    && (forall b :: b in w.ballots ==>
          b.voter in w.nodes && b.candidate in w.nodes && 1 <= b.term <= w.nodes[b.voter].term)
    && (forall b :: b in w.ballots && Undecided(w, b.term) && w.nodes[b.voter].term == b.term ==>
          w.nodes[b.voter].votedFor == b.candidate)
    && (forall b1, b2 ::
          b1 in w.ballots && b2 in w.ballots && b1.voter == b2.voter && b1.term == b2.term && Undecided(w, b1.term) ==>
          b1.candidate == b2.candidate)
  }

  /** A winner's voters never support anybody else in that term. */
  ghost predicate WinOk(w: Cluster, win: Win) {
    && win.leader in w.nodes
    && win.resume >= 1
    && win.term <= w.nodes[win.leader].reserveTerm <= w.nodes[win.leader].term
    && Majority(win.voters, w.nodes.Keys)
    && (forall v :: v in win.voters && w.nodes[v].term == win.term ==> w.nodes[v].votedFor == win.leader)
    && (win.term >= 1 ==> forall v :: v in win.voters ==>
          Voted(w.ballots, v, win.term, win.leader, win.resume - 1))
    && (forall b :: b in w.ballots && b.term == win.term && b.voter in win.voters ==> b.candidate == win.leader)
    && (w.nodes[win.leader].reserveTerm == win.term ==> win.resume <= w.nodes[win.leader].nextGSN)
  }

  ghost predicate WinsOk(w: Cluster) {
    && (forall win :: win in w.wins ==> WinOk(w, win))
    && (forall w1, w2 :: w1 in w.wins && w2 in w.wins && w1.term == w2.term ==> w1 == w2)
  }

  /** A member that voted in a newer term had every mark it acknowledged in an older one. */
  ghost predicate MarksOk(w: Cluster) {
    && (forall k :: k in w.marks ==> k.voter in w.nodes && k.upTo <= w.nodes[k.voter].acceptedUpTo)
    && (forall k, b :: k in w.marks && b in w.ballots && k.voter == b.voter && k.term < b.term ==>
          k.upTo <= b.accepted)
  }

  ghost predicate BlockOk(w: Cluster, n: int)
    requires n in w.nodes
  {
    var s := w.nodes[n];
    && (s.pending > 0 ==> Leads(w, s.reserveTerm, n) && s.reserveAcks <= Markers(w, s.reserveTerm, s.pending))
    && (s.confirmedUpTo >= s.nextGSN ==> Leads(w, s.reserveTerm, n) && Confirmed(w, s.reserveTerm, s.confirmedUpTo))
  }

  ghost predicate BlocksOk(w: Cluster) {
    forall n :: n in w.nodes ==> BlockOk(w, n)
  }

  ghost predicate AllocationOk(w: Cluster, a: Allocation) {
    && a.node in w.nodes
    && (exists win :: win in w.wins && win.term == a.term && win.leader == a.node && win.resume <= a.gsn)
    && a.gsn <= a.upTo
    && Confirmed(w, a.term, a.upTo)
    && a.term <= w.nodes[a.node].reserveTerm
    && (a.term == w.nodes[a.node].reserveTerm ==> a.gsn < w.nodes[a.node].nextGSN)
  }

  ghost predicate AllocationsOk(w: Cluster, issued: seq<Allocation>) {
    && (forall i :: 0 <= i < |issued| ==> AllocationOk(w, issued[i]))
    && (forall i, j :: 0 <= i < j < |issued| && issued[i].term == issued[j].term ==> issued[i].gsn < issued[j].gsn)
  }

  ghost predicate Inv(w: Cluster) {
    NodesOk(w) && NetOk(w) && BallotsOk(w) && WinsOk(w) && MarksOk(w) && BlocksOk(w)
  }

  // ----- what every handler guarantees -----

  /** The rules a handler's effect keeps, whatever the handler. */
  ghost predicate Lawful(w: Cluster, n: int, e: Effect)
    requires n in w.nodes
  {
    var s, t := w.nodes[n], e.node;
    && t.id == n && t.term >= s.term && t.acceptedUpTo >= s.acceptedUpTo && t.nextGSN >= s.nextGSN
    && (t.term == s.term ==> t.votedFor == s.votedFor || s.votedFor == -1 || Leads(w, s.term, t.votedFor))
    && LawfulVotes(w, n, e)
    && LawfulStatus(w, n, e)
    && LawfulBlock(w, n, e)
    && (forall m :: m in e.sent ==> MessageOk(Perform(w, n, e), m))
  }

  ghost predicate LawfulVotes(w: Cluster, n: int, e: Effect)
    requires n in w.nodes
  {
    var s, t := w.nodes[n], e.node;
    && (e.cast == {} || e.marked == {})
    && (forall b :: b in e.cast ==>
          && b.voter == n && b.candidate in w.nodes && b.term == t.term && b.term >= 1
          && b.accepted == s.acceptedUpTo && t.votedFor == b.candidate
          && (s.term < t.term || s.votedFor == -1 || s.votedFor == b.candidate))
    && (forall k :: k in e.marked ==> k.voter == n && s.term <= k.term && k.upTo <= t.acceptedUpTo)
  }

  /** A candidate holds a ballot of each of its votes; a leader was one already or
      was a candidate that now holds a majority. */
  ghost predicate LawfulStatus(w: Cluster, n: int, e: Effect)
    requires n in w.nodes
  {
    var s, t := w.nodes[n], e.node;
    && (t.status == Candidate ==>
          && t.term >= 1 && t.votes <= w.nodes.Keys
          && (t.term > s.term || s.status == Candidate)
          && (forall v :: v in t.votes ==> Voted(w.ballots + e.cast, v, t.term, n, t.voteMaxAccepted)))
    && (t.status == Leader && s.status == Leader ==> t.term == s.term)
    && (t.status == Leader && s.status != Leader ==>
          && s.status == Candidate && t.term == s.term && t.votedFor == s.votedFor && e.cast == {}
          && Majority(t.votes, w.nodes.Keys)
          && (forall v :: v in t.votes ==> Voted(w.ballots, v, t.term, n, t.nextGSN - 1)))
  }

  ghost predicate LawfulBlock(w: Cluster, n: int, e: Effect)
    requires n in w.nodes
  {
    var s, t := w.nodes[n], e.node;
    var w' := Perform(w, n, e);
    && BlockOk(w', n)
    && (t.reserveTerm == if t.status == Leader then t.term else s.reserveTerm)
  }

  // ----- every lawful effect keeps the invariant -----

  lemma ConfirmedGrows(w: Cluster, n: int, e: Effect, term: nat, upTo: nat)
    requires n in w.nodes
    ensures Markers(w, term, upTo) <= Markers(Perform(w, n, e), term, upTo)
    ensures Confirmed(w, term, upTo) ==> Confirmed(Perform(w, n, e), term, upTo)
  {
    var w' := Perform(w, n, e);
    assert w'.nodes.Keys == w.nodes.Keys;
    Cardinality(Markers(w, term, upTo), Markers(w', term, upTo));
  }

  lemma LeadsGrows(w: Cluster, n: int, e: Effect, term: nat, l: int)
    requires n in w.nodes && Leads(w, term, l)
    ensures Leads(Perform(w, n, e), term, l)
  {
  }

  /** A node whose reservation is untouched. */
  lemma BlockGrows(w: Cluster, n: int, e: Effect, k: int)
    requires BlocksOk(w) && n in w.nodes && k in w.nodes
    requires var s, t := w.nodes[k], Perform(w, n, e).nodes[k];
      && t.pending == s.pending && t.reserveTerm == s.reserveTerm && t.reserveAcks == s.reserveAcks
      && t.confirmedUpTo == s.confirmedUpTo && t.nextGSN >= s.nextGSN
    ensures BlockOk(Perform(w, n, e), k)
  {
    var s := w.nodes[k];
    assert BlockOk(w, k);
    ConfirmedGrows(w, n, e, s.reserveTerm, s.pending);
    ConfirmedGrows(w, n, e, s.reserveTerm, s.confirmedUpTo);
    if s.pending > 0 || s.confirmedUpTo >= s.nextGSN {
      LeadsGrows(w, n, e, s.reserveTerm, k);
    }
  }

  lemma KeepBallots(w: Cluster, n: int, e: Effect)
    requires Inv(w) && n in w.nodes && Lawful(w, n, e)
    ensures BallotsOk(Perform(w, n, e))
  {
    var w' := Perform(w, n, e);
    forall b | b in w'.ballots && Undecided(w', b.term)
      ensures Undecided(w, b.term)
    {
    }
  }

  lemma KeepMarks(w: Cluster, n: int, e: Effect)
    requires Inv(w) && n in w.nodes && Lawful(w, n, e)
    ensures MarksOk(Perform(w, n, e))
  {
  }

  /** A majority for `n` and the majority of a win share a voter, who voted for both. */
  lemma SharedVoter(w: Cluster, n: int, e: Effect, win: Win)
    requires n in w.nodes && LawfulStatus(w, n, e) && WinOk(w, win) && win in w.wins
    requires w.nodes[n].status != Leader && e.node.status == Leader && win.term == e.node.term >= 1
    ensures Leads(w, e.node.term, n)
  {
    var v := MajoritiesMeet(win.voters, e.node.votes, w.nodes.Keys);
    assert Voted(w.ballots, v, e.node.term, n, e.node.nextGSN - 1);
  }

  lemma NewTerm(w: Cluster, n: int, e: Effect)
    requires NodesOk(w) && WinsOk(w) && n in w.nodes && LawfulStatus(w, n, e)
    requires w.nodes[n].status != Leader && e.node.status == Leader
    ensures Undecided(w, e.node.term)
  {
    assert NodeOk(w, n);
    forall win | win in w.wins
      ensures win.term != e.node.term
    {
      if win.term == e.node.term {
        SharedVoter(w, n, e, win);
      }
    }
  }

  /** The winner's term was undecided until now, so its voters' ballots are all for the winner. */
  lemma NewWin(w: Cluster, n: int, e: Effect)
    requires NodesOk(w) && WinsOk(w) && BallotsOk(w) && n in w.nodes && Lawful(w, n, e)
    requires w.nodes[n].status != Leader && e.node.status == Leader
    ensures Undecided(w, e.node.term)
    ensures WinOk(Perform(w, n, e), Win(e.node.term, n, e.node.votes, e.node.nextGSN))
  {
    NewTerm(w, n, e);
    var t, w' := e.node, Perform(w, n, e);
    assert w'.nodes.Keys == w.nodes.Keys;
    assert w'.ballots == w.ballots;
    forall v | v in t.votes
      ensures Voted(w.ballots, v, t.term, n, t.nextGSN - 1)
      ensures w'.nodes[v].term == t.term ==> w'.nodes[v].votedFor == n
      ensures forall b :: b in w.ballots && b.term == t.term && b.voter == v ==> b.candidate == n
    {
      assert Voted(w.ballots, v, t.term, n, t.nextGSN - 1);
    }
  }

  lemma KeepWin(w: Cluster, n: int, e: Effect, win: Win)
    requires NodesOk(w) && WinsOk(w) && BallotsOk(w) && n in w.nodes && Lawful(w, n, e) && win in w.wins
    ensures WinOk(Perform(w, n, e), win)
  {
    var w' := Perform(w, n, e);
    assert w'.nodes.Keys == w.nodes.Keys;
    assert WinOk(w, win);
  }

  lemma KeepWins(w: Cluster, n: int, e: Effect)
    requires NodesOk(w) && WinsOk(w) && BallotsOk(w) && n in w.nodes && Lawful(w, n, e)
    ensures WinsOk(Perform(w, n, e))
  {
    forall win | win in w.wins
      ensures WinOk(Perform(w, n, e), win)
    {
      KeepWin(w, n, e, win);
    }
    if w.nodes[n].status != Leader && e.node.status == Leader {
      NewWin(w, n, e);
    }
  }

  lemma KeepOtherNode(w: Cluster, n: int, e: Effect, k: int)
    requires n in w.nodes && k in w.nodes && NodeOk(w, k) && k != n && e.node.id == n
    ensures NodeOk(Perform(w, n, e), k)
  {
    var s, w' := w.nodes[k], Perform(w, n, e);
    assert w'.nodes.Keys == w.nodes.Keys && w'.nodes[k] == s;
    if s.status == Leader {
      LeadsGrows(w, n, e, s.term, k);
    }
    if s.status == Candidate {
      forall v | v in s.votes
        ensures Voted(w'.ballots, v, s.term, k, s.voteMaxAccepted)
      {
        VotedMore(w.ballots, w'.ballots, v, s.term, k, s.voteMaxAccepted, s.voteMaxAccepted);
      }
    }
  }

  lemma KeepOwnNode(w: Cluster, n: int, e: Effect)
    requires NodesOk(w) && WinsOk(w) && n in w.nodes && Lawful(w, n, e)
    ensures NodeOk(Perform(w, n, e), n)
  {
    var s, t, w' := w.nodes[n], e.node, Perform(w, n, e);
    assert w'.nodes.Keys == w.nodes.Keys && NodeOk(w, n);
    if t.status == Leader && s.status != Leader {
      assert Win(t.term, n, t.votes, t.nextGSN) in w'.wins;
    } else if t.status == Leader {
      LeadsGrows(w, n, e, s.term, n);
    } else if t.status == Candidate {
      assert w'.wins == w.wins;
      forall win | win in w.wins && win.leader == n && t.term > s.term
        ensures win.term != t.term
      {
        assert WinOk(w, win);
      }
    }
  }

  lemma KeepNodes(w: Cluster, n: int, e: Effect)
    requires NodesOk(w) && WinsOk(w) && n in w.nodes && Lawful(w, n, e)
    ensures NodesOk(Perform(w, n, e))
  {
    KeepOwnNode(w, n, e);
    forall k | k in w.nodes && k != n
      ensures NodeOk(Perform(w, n, e), k)
    {
      KeepOtherNode(w, n, e, k);
    }
  }

  lemma KeepNet(w: Cluster, n: int, e: Effect)
    requires NetOk(w) && n in w.nodes
    requires forall m :: m in e.sent ==> MessageOk(Perform(w, n, e), m)
    ensures NetOk(Perform(w, n, e))
  {
    var w' := Perform(w, n, e);
    forall m | m in w.net
      ensures MessageOk(w', m)
    {
      assert MessageOk(w, m);
    }
  }

  lemma KeepBlocks(w: Cluster, n: int, e: Effect)
    requires BlocksOk(w) && n in w.nodes && LawfulBlock(w, n, e)
    ensures BlocksOk(Perform(w, n, e))
  {
    forall k | k in w.nodes && k != n
      ensures BlockOk(Perform(w, n, e), k)
    {
      BlockGrows(w, n, e, k);
    }
  }

  lemma KeepInv(w: Cluster, n: int, e: Effect)
    requires Inv(w) && n in w.nodes && Lawful(w, n, e)
    ensures Inv(Perform(w, n, e))
  {
    KeepBallots(w, n, e);
    KeepMarks(w, n, e);
    KeepWins(w, n, e);
    KeepNodes(w, n, e);
    KeepNet(w, n, e);
    KeepBlocks(w, n, e);
  }

  lemma KeepAllocations(w: Cluster, n: int, e: Effect, issued: seq<Allocation>)
    requires NodesOk(w) && WinsOk(w) && n in w.nodes && Lawful(w, n, e) && AllocationsOk(w, issued)
    ensures AllocationsOk(Perform(w, n, e), issued)
  {
    forall i | 0 <= i < |issued|
      ensures AllocationOk(Perform(w, n, e), issued[i])
    {
      KeepAllocation(w, n, e, issued[i]);
    }
  }

  lemma KeepAllocation(w: Cluster, n: int, e: Effect, a: Allocation)
    requires NodesOk(w) && WinsOk(w) && n in w.nodes && Lawful(w, n, e) && AllocationOk(w, a)
    ensures AllocationOk(Perform(w, n, e), a)
  {
    ConfirmedGrows(w, n, e, a.term, a.upTo);
    var win :| win in w.wins && win.term == a.term && win.leader == a.node && win.resume <= a.gsn;
    assert win in Perform(w, n, e).wins && WinOk(w, win);
  }

  // ----- every handler is lawful -----

  lemma VotedMore(ballots: set<Ballot>, more: set<Ballot>, voter: int, term: nat, candidate: int, bound: int, bound': int)
    requires Voted(ballots, voter, term, candidate, bound) && ballots <= more && bound <= bound'
    ensures Voted(more, voter, term, candidate, bound')
  {
  }

  /** A handler that leaves the candidacy as it is, or ends it. */
  lemma SameRole(w: Cluster, n: int, e: Effect)
    requires NodesOk(w) && n in w.nodes
    requires var s, t := w.nodes[n], e.node;
      t.status == Follower ||
      (t.status == s.status && t.term == s.term && t.votes == s.votes && t.voteMaxAccepted == s.voteMaxAccepted)
    ensures LawfulStatus(w, n, e)
  {
    if e.node.status == Candidate {
      var s := w.nodes[n];
      assert CandidateOk(w, n);
      forall v | v in s.votes
        ensures Voted(w.ballots + e.cast, v, s.term, n, s.voteMaxAccepted)
      {
        VotedMore(w.ballots, w.ballots + e.cast, v, s.term, n, s.voteMaxAccepted, s.voteMaxAccepted);
      }
    }
  }

  /** A handler that leaves the reservation as it is. */
  lemma SameBlock(w: Cluster, n: int, e: Effect)
    requires NodesOk(w) && BlocksOk(w) && n in w.nodes
    requires var s, t := w.nodes[n], e.node;
      && t.pending == s.pending && t.reserveTerm == s.reserveTerm && t.reserveAcks == s.reserveAcks
      && t.confirmedUpTo == s.confirmedUpTo && t.nextGSN >= s.nextGSN
      && (t.status == Leader ==> s.status == Leader && t.term == s.term)
    ensures LawfulBlock(w, n, e)
  {
    BlockGrows(w, n, e, n);
  }

  lemma QuietIsLawful(w: Cluster, n: int)
    requires NodesOk(w) && BlocksOk(w) && n in w.nodes
    ensures Lawful(w, n, Quiet(w.nodes[n]))
  {
    SameRole(w, n, Quiet(w.nodes[n]));
    SameBlock(w, n, Quiet(w.nodes[n]));
  }

  lemma StartElectionIsLawful(w: Cluster, n: int)
    requires NodesOk(w) && BlocksOk(w) && n in w.nodes
    ensures Lawful(w, n, StartElection(w.nodes[n]))
  {
    var s, e := w.nodes[n], StartElection(w.nodes[n]);
    SameBlock(w, n, e);
    if s.status == Leader {
      SameRole(w, n, e);
    } else {
      assert Ballot(n, s.term + 1, n, s.acceptedUpTo) in w.ballots + e.cast;
      assert Voted(w.ballots + e.cast, n, s.term + 1, n, s.acceptedUpTo);
    }
  }

  lemma SendHeartbeatIsLawful(w: Cluster, n: int)
    requires NodesOk(w) && BlocksOk(w) && n in w.nodes
    ensures Lawful(w, n, SendHeartbeat(w.nodes[n]))
  {
    var e := SendHeartbeat(w.nodes[n]);
    SameRole(w, n, e);
    SameBlock(w, n, e);
    if w.nodes[n].status == Leader {
      LeadsGrows(w, n, e, w.nodes[n].term, n);
    }
  }

  lemma HandleHeartbeatIsLawful(w: Cluster, n: int, src: int, term: nat)
    requires NodesOk(w) && BlocksOk(w) && n in w.nodes && Leads(w, term, src)
    ensures Lawful(w, n, HandleHeartbeat(w.nodes[n], src, term))
  {
    SameRole(w, n, HandleHeartbeat(w.nodes[n], src, term));
    SameBlock(w, n, HandleHeartbeat(w.nodes[n], src, term));
  }

  lemma HandleVoteRequestIsLawful(w: Cluster, n: int, src: int, term: nat)
    requires NodesOk(w) && BlocksOk(w) && n in w.nodes && src in w.nodes && term >= 1
    ensures Lawful(w, n, HandleVoteRequest(w.nodes[n], src, term))
  {
    SameRole(w, n, HandleVoteRequest(w.nodes[n], src, term));
    SameBlock(w, n, HandleVoteRequest(w.nodes[n], src, term));
  }

  lemma HandleReserveIsLawful(w: Cluster, n: int, src: int, term: nat, upTo: nat)
    requires NodesOk(w) && BlocksOk(w) && n in w.nodes && upTo > 0
    ensures Lawful(w, n, HandleReserve(w.nodes[n], src, term, upTo))
  {
    SameRole(w, n, HandleReserve(w.nodes[n], src, term, upTo));
    SameBlock(w, n, HandleReserve(w.nodes[n], src, term, upTo));
  }

  /** A leader's request: its own mark counts, and in a group of one confirms at once. */
  lemma RequestReservationIsLawful(w: Cluster, n: int, next: nat, recent: bool, e: Effect)
    requires NodesOk(w) && BlocksOk(w) && n in w.nodes && next >= w.nodes[n].nextGSN
    requires e == RequestReservation(w.nodes[n].(nextGSN := next), |w.nodes|, recent)
    ensures Lawful(w, n, e)
  {
    var s := w.nodes[n].(nextGSN := next);
    RequestSends(w, n, s, recent);
    SameRole(w, n, e);
    RequestKeepsBlock(w, n, s, recent);
  }

  lemma RequestSends(w: Cluster, n: int, s: Node, recent: bool)
    requires n in w.nodes && s == w.nodes[n].(nextGSN := s.nextGSN) && s.id == n
    ensures var e := RequestReservation(s, |w.nodes|, recent);
      && LawfulVotes(w, n, e)
      && forall m :: m in e.sent ==> MessageOk(Perform(w, n, e), m)
  {
  }

  lemma RequestKeepsBlock(w: Cluster, n: int, s: Node, recent: bool)
    requires NodesOk(w) && BlocksOk(w) && n in w.nodes
    requires s == w.nodes[n].(nextGSN := s.nextGSN) && s.nextGSN >= w.nodes[n].nextGSN
    ensures LawfulBlock(w, n, RequestReservation(s, |w.nodes|, recent))
  {
    var e := RequestReservation(s, |w.nodes|, recent);
    assert BlockOk(w, n);
    if e.marked == {} && e.node.pending == s.pending {
      SameBlock(w, n, e);
    } else if e.marked == {} {
      RepeatConfirms(w, n, s, recent);
    } else {
      OpeningKeepsBlock(w, n, s, recent);
    }
  }

  /** Opening a block: the leader's own mark is the first. */
  lemma OpeningKeepsBlock(w: Cluster, n: int, s: Node, recent: bool)
    requires NodesOk(w) && n in w.nodes && s == w.nodes[n].(nextGSN := s.nextGSN) && BlockOk(w, n)
    requires s.nextGSN >= w.nodes[n].nextGSN
    requires RequestReservation(s, |w.nodes|, recent).marked != {}
    ensures LawfulBlock(w, n, RequestReservation(s, |w.nodes|, recent))
  {
    var e := RequestReservation(s, |w.nodes|, recent);
    var t, w' := e.node, Perform(w, n, e);
    var upTo := if t.pending > 0 then t.pending else t.confirmedUpTo;
    assert Mark(n, t.term, upTo) in w'.marks;
    assert t.reserveAcks <= Markers(w', t.reserveTerm, upTo);
    MarksConfirm(w', t, upTo);
    LeadsGrows(w, n, e, t.term, n);
    ConfirmedGrows(w, n, e, s.reserveTerm, s.confirmedUpTo);
  }

  /** Repeating a request that already has its majority. */
  lemma RepeatConfirms(w: Cluster, n: int, s: Node, recent: bool)
    requires NodesOk(w) && n in w.nodes && s == w.nodes[n].(nextGSN := s.nextGSN) && BlockOk(w, n)
    requires RequestReservation(s, |w.nodes|, recent).marked == {}
    requires RequestReservation(s, |w.nodes|, recent).node.pending != s.pending
    ensures LawfulBlock(w, n, RequestReservation(s, |w.nodes|, recent))
  {
    var e := RequestReservation(s, |w.nodes|, recent);
    LeadsGrows(w, n, e, s.term, n);
    ConfirmedGrows(w, n, e, s.term, s.pending);
    MarksConfirm(Perform(w, n, e), e.node, s.pending);
  }

  /** Enough acknowledgements make a confirmed reservation. */
  lemma MarksConfirm(w: Cluster, t: Node, upTo: nat)
    requires t.reserveAcks <= Markers(w, t.reserveTerm, upTo)
    ensures |t.reserveAcks| > |w.nodes| / 2 ==> Confirmed(w, t.reserveTerm, upTo)
  {
    Cardinality(t.reserveAcks, Markers(w, t.reserveTerm, upTo));
  }

  lemma HandleReserveAckIsLawful(w: Cluster, n: int, src: int, term: nat, upTo: nat)
    requires NodesOk(w) && BlocksOk(w) && n in w.nodes && src in w.nodes && Mark(src, term, upTo) in w.marks && upTo > 0
    ensures Lawful(w, n, HandleReserveAck(w.nodes[n], |w.nodes|, src, term, upTo))
  {
    var s := w.nodes[n];
    var e := HandleReserveAck(s, |w.nodes|, src, term, upTo);
    SameRole(w, n, e);
    if s.pending != upTo || s.reserveTerm != term {
      SameBlock(w, n, e);
    } else {
      AckKeepsBlock(w, n, src);
    }
  }

  lemma AckKeepsBlock(w: Cluster, n: int, src: int)
    requires NodesOk(w) && BlocksOk(w) && n in w.nodes && src in w.nodes && w.nodes[n].pending > 0
    requires Mark(src, w.nodes[n].reserveTerm, w.nodes[n].pending) in w.marks
    ensures LawfulBlock(w, n, HandleReserveAck(w.nodes[n], |w.nodes|, src, w.nodes[n].reserveTerm, w.nodes[n].pending))
  {
    var s := w.nodes[n];
    var e := HandleReserveAck(s, |w.nodes|, src, s.reserveTerm, s.pending);
    var w' := Perform(w, n, e);
    assert BlockOk(w, n);
    LeadsGrows(w, n, e, s.reserveTerm, n);
    ConfirmedGrows(w, n, e, s.reserveTerm, s.pending);
    ConfirmedGrows(w, n, e, s.reserveTerm, s.confirmedUpTo);
    assert e.node.reserveAcks <= Markers(w', s.reserveTerm, s.pending);
    MarksConfirm(w', e.node, s.pending);
  }

  /** The ballots behind a candidate's votes once one more has arrived. */
  lemma BallotsBehindVotes(w: Cluster, n: int, src: int, accepted: nat, bound: int)
    requires NodesOk(w) && n in w.nodes && w.nodes[n].status == Candidate
    requires Ballot(src, w.nodes[n].term, n, accepted) in w.ballots
    requires bound >= w.nodes[n].voteMaxAccepted && bound >= accepted
    ensures forall v :: v in w.nodes[n].votes + {src} ==> Voted(w.ballots, v, w.nodes[n].term, n, bound)
  {
    var s := w.nodes[n];
    assert CandidateOk(w, n);
    forall v | v in s.votes + {src}
      ensures Voted(w.ballots, v, s.term, n, bound)
    {
      if v != src {
        VotedMore(w.ballots, w.ballots, v, s.term, n, s.voteMaxAccepted, bound);
      }
    }
  }

  /** A fresh leader holds one mark, its own, in the term it just won. */
  lemma WinnerKeepsBlock(w: Cluster, n: int, s: Node)
    requires n in w.nodes && s.id == n
    requires w.nodes[n].status != Leader && s.status == Leader && s.leader == n
    ensures LawfulBlock(w, n, Resume(s, |w.nodes|))
  {
    var e := Resume(s, |w.nodes|);
    var w' := Perform(w, n, e);
    assert Win(e.node.term, n, e.node.votes, e.node.nextGSN) in w'.wins;
    var upTo := e.node.nextGSN - 1 + GSN_BLOCK_SIZE;
    assert Mark(n, e.node.term, upTo) in w'.marks;
    assert e.node.reserveAcks <= Markers(w', e.node.term, upTo);
    MarksConfirm(w', e.node, upTo);
  }

  /** Winning: the majority's marks are all below the resumed counter. */
  lemma WinningIsLawful(w: Cluster, n: int, src: int, accepted: nat, e: Effect)
    requires NodesOk(w) && n in w.nodes && w.nodes[n].status == Candidate
    requires src in w.nodes && Ballot(src, w.nodes[n].term, n, accepted) in w.ballots
    requires |w.nodes[n].votes + {src}| > |w.nodes| / 2
    requires e == HandleVoteResponse(w.nodes[n], |w.nodes|, src, w.nodes[n].term, true, accepted)
    ensures Lawful(w, n, e)
  {
    WinnerHasMajority(w, n, src, accepted);
    WinnerBlock(w, n, src, accepted, e);
    WinnerVotes(w, n, src, accepted, e);
  }

  lemma WinnerBlock(w: Cluster, n: int, src: int, accepted: nat, e: Effect)
    requires NodesOk(w) && n in w.nodes && w.nodes[n].status == Candidate
    requires |w.nodes[n].votes + {src}| > |w.nodes| / 2
    requires e == HandleVoteResponse(w.nodes[n], |w.nodes|, src, w.nodes[n].term, true, accepted)
    ensures LawfulBlock(w, n, e)
  {
    var s := w.nodes[n];
    assert NodeOk(w, n);
    var s1 := s.(votes := s.votes + {src}, voteMaxAccepted := Max(s.voteMaxAccepted, accepted));
    WinnerKeepsBlock(w, n, s1.(status := Leader, leader := n));
  }

  lemma WinnerVotes(w: Cluster, n: int, src: int, accepted: nat, e: Effect)
    requires NodesOk(w) && n in w.nodes && w.nodes[n].status == Candidate
    requires |w.nodes[n].votes + {src}| > |w.nodes| / 2
    requires e == HandleVoteResponse(w.nodes[n], |w.nodes|, src, w.nodes[n].term, true, accepted)
    ensures var s, t := w.nodes[n], e.node;
      && t.id == n && t.term == s.term && t.votedFor == s.votedFor
      && t.acceptedUpTo >= s.acceptedUpTo && t.nextGSN >= s.nextGSN
    ensures LawfulVotes(w, n, e)
    ensures forall m :: m in e.sent ==> MessageOk(Perform(w, n, e), m)
  {
    assert NodeOk(w, n);
  }

  lemma WinnerHasMajority(w: Cluster, n: int, src: int, accepted: nat)
    requires NodesOk(w) && n in w.nodes && w.nodes[n].status == Candidate
    requires src in w.nodes && Ballot(src, w.nodes[n].term, n, accepted) in w.ballots
    requires |w.nodes[n].votes + {src}| > |w.nodes| / 2
    ensures
      var e := HandleVoteResponse(w.nodes[n], |w.nodes|, src, w.nodes[n].term, true, accepted);
      LawfulStatus(w, n, e)
  {
    var s := w.nodes[n];
    assert CandidateOk(w, n);
    var e := HandleVoteResponse(s, |w.nodes|, src, s.term, true, accepted);
    BallotsBehindVotes(w, n, src, accepted, e.node.nextGSN - 1);
  }

  lemma CountingVoteIsLawful(w: Cluster, n: int, src: int, accepted: nat)
    requires NodesOk(w) && BlocksOk(w) && n in w.nodes && w.nodes[n].status == Candidate
    requires src in w.nodes && Ballot(src, w.nodes[n].term, n, accepted) in w.ballots
    requires |w.nodes[n].votes + {src}| <= |w.nodes| / 2
    ensures Lawful(w, n, HandleVoteResponse(w.nodes[n], |w.nodes|, src, w.nodes[n].term, true, accepted))
  {
    var s := w.nodes[n];
    var e := HandleVoteResponse(s, |w.nodes|, src, s.term, true, accepted);
    SameBlock(w, n, e);
    assert LawfulStatus(w, n, e) by {
      assert CandidateOk(w, n);
      BallotsBehindVotes(w, n, src, accepted, e.node.voteMaxAccepted);
      assert w.ballots + e.cast == w.ballots;
    }
  }

  lemma HandleVoteResponseIsLawful(w: Cluster, n: int, src: int, term: nat, granted: bool, accepted: nat)
    requires NodesOk(w) && BlocksOk(w) && n in w.nodes && src in w.nodes
    requires granted ==> Ballot(src, term, n, accepted) in w.ballots
    ensures Lawful(w, n, HandleVoteResponse(w.nodes[n], |w.nodes|, src, term, granted, accepted))
  {
    var s := w.nodes[n];
    if term > s.term {
      SameRole(w, n, HandleVoteResponse(s, |w.nodes|, src, term, granted, accepted));
      SameBlock(w, n, HandleVoteResponse(s, |w.nodes|, src, term, granted, accepted));
    } else if s.status != Candidate || term != s.term || !granted {
      QuietIsLawful(w, n);
    } else if |s.votes + {src}| > |w.nodes| / 2 {
      WinningIsLawful(w, n, src, accepted, HandleVoteResponse(s, |w.nodes|, src, term, granted, accepted));
    } else {
      CountingVoteIsLawful(w, n, src, accepted);
    }
  }

  lemma ReceiveIsLawful(w: Cluster, n: int, m: Message)
    requires NodesOk(w) && BlocksOk(w) && NetOk(w) && n in w.nodes && m in w.net && Addressed(m, n)
    ensures Lawful(w, n, Receive(w.nodes[n], |w.nodes|, m))
  {
    assert MessageOk(w, m);
    match m
    case VoteRequest(src, term) => HandleVoteRequestIsLawful(w, n, src, term);
    case VoteResponse(src, _, term, granted, accepted) => HandleVoteResponseIsLawful(w, n, src, term, granted, accepted);
    case Reserve(src, term, upTo) => HandleReserveIsLawful(w, n, src, term, upTo);
    case ReserveAck(src, _, term, upTo) => HandleReserveAckIsLawful(w, n, src, term, upTo);
    case Heartbeat(src, term) => HandleHeartbeatIsLawful(w, n, src, term);
  }

  lemma AllocateIsLawful(w: Cluster, n: int, recent: bool, e: Effect)
    requires NodesOk(w) && BlocksOk(w) && n in w.nodes && e == Allocate(w.nodes[n], |w.nodes|, recent).0
    ensures Lawful(w, n, e)
  {
    var s := w.nodes[n];
    if s.nextGSN <= s.confirmedUpTo && s.confirmedUpTo - s.nextGSN >= GSN_BLOCK_SIZE / 2 {
      DrawIsLawful(w, n, e);
    } else {
      var next := if s.nextGSN > s.confirmedUpTo then s.nextGSN else s.nextGSN + 1;
      AllocateCases(s, |w.nodes|, next, recent);
      RequestReservationIsLawful(w, n, next, recent, e);
    }
  }

  lemma AllocateCases(s: Node, size: nat, next: nat, recent: bool)
    requires next == if s.nextGSN > s.confirmedUpTo then s.nextGSN else s.nextGSN + 1
    requires s.nextGSN > s.confirmedUpTo || s.confirmedUpTo - s.nextGSN < GSN_BLOCK_SIZE / 2
    ensures Allocate(s, size, recent).0 == RequestReservation(s.(nextGSN := next), size, recent)
  {
    assert s.(nextGSN := s.nextGSN) == s;
  }

  lemma DrawIsLawful(w: Cluster, n: int, e: Effect)
    requires NodesOk(w) && BlocksOk(w) && n in w.nodes
    requires e == Quiet(w.nodes[n].(nextGSN := w.nodes[n].nextGSN + 1))
    ensures Lawful(w, n, e)
  {
    SameRole(w, n, e);
    SameBlock(w, n, e);
  }

  lemma StepIsLawful(w: Cluster, step: Step)
    requires Inv(w) && step.node in w.nodes
    ensures Lawful(w, step.node, EffectOf(w, step))
  {
    var n := step.node;
    match step
    case Timeout(_) => StartElectionIsLawful(w, n);
    case Deliver(_, m) =>
      if m in w.net && Addressed(m, n) {
        ReceiveIsLawful(w, n, m);
      } else {
        QuietIsLawful(w, n);
      }
    case Beat(_) => SendHeartbeatIsLawful(w, n);
    case Request(_, recent) =>
      assert w.nodes[n].(nextGSN := w.nodes[n].nextGSN) == w.nodes[n];
      RequestReservationIsLawful(w, n, w.nodes[n].nextGSN, recent, EffectOf(w, step));
    case Obtain(_, recent) => AllocateIsLawful(w, n, recent, EffectOf(w, step));
  }

  /** Allocating draws from the block the node confirmed itself, above all it drew before. */
  lemma DrawIsOk(w: Cluster, n: int, e: Effect, a: Allocation)
    requires WinsOk(w) && BlocksOk(w) && n in w.nodes && e.node.nextGSN == w.nodes[n].nextGSN + 1
    requires e.node.reserveTerm >= w.nodes[n].reserveTerm
    requires w.nodes[n].nextGSN <= w.nodes[n].confirmedUpTo
    requires a == Allocation(n, w.nodes[n].reserveTerm, w.nodes[n].nextGSN, w.nodes[n].confirmedUpTo)
    ensures AllocationOk(Perform(w, n, e), a)
  {
    ConfirmedGrows(w, n, e, a.term, a.upTo);
    assert BlockOk(w, n);
    var win :| win in w.wins && win.term == a.term && win.leader == n;
    assert WinOk(w, win);
    assert win in Perform(w, n, e).wins;
  }

  lemma DrawIsHigher(w: Cluster, n: int, issued: seq<Allocation>, i: nat)
    requires WinsOk(w) && BlocksOk(w) && n in w.nodes && AllocationsOk(w, issued) && i < |issued|
    requires w.nodes[n].nextGSN <= w.nodes[n].confirmedUpTo && issued[i].term == w.nodes[n].reserveTerm
    ensures issued[i].gsn < w.nodes[n].nextGSN
  {
    assert BlockOk(w, n) && AllocationOk(w, issued[i]);
  }

  lemma StepKeepsInv(w: World, step: Step)
    requires Inv(w.cluster) && AllocationsOk(w.cluster, w.issued)
    ensures Inv(Next(w, step).cluster) && AllocationsOk(Next(w, step).cluster, Next(w, step).issued)
  {
    var c, n := w.cluster, step.node;
    if n in c.nodes {
      StepIsLawful(c, step);
      var drawn := DrawnBy(c.nodes[n], step);
      if step.Obtain? && drawn != [] {
        DrawSteps(c.nodes[n], |c.nodes|, step.recent);
      }
      LawfulKeepsInv(c, n, EffectOf(c, step), w.issued, drawn);
    }
  }

  lemma DrawSteps(s: Node, size: nat, recent: bool)
    requires s.nextGSN <= s.confirmedUpTo
    ensures Allocate(s, size, recent).0.node.nextGSN == s.nextGSN + 1
  {
  }

  lemma LawfulKeepsInv(w: Cluster, n: int, e: Effect, issued: seq<Allocation>, drawn: seq<Allocation>)
    requires Inv(w) && n in w.nodes && Lawful(w, n, e) && AllocationsOk(w, issued)
    requires drawn == [] ||
      (w.nodes[n].nextGSN <= w.nodes[n].confirmedUpTo && e.node.nextGSN == w.nodes[n].nextGSN + 1
       && drawn == [Allocation(n, w.nodes[n].reserveTerm, w.nodes[n].nextGSN, w.nodes[n].confirmedUpTo)])
    ensures Inv(Perform(w, n, e)) && AllocationsOk(Perform(w, n, e), issued + drawn)
  {
    KeepInv(w, n, e);
    KeepAllocations(w, n, e, issued);
    if drawn == [] {
      assert issued + drawn == issued;
    } else {
      ReserveTermGrows(w, n, e);
      DrawKeepsAllocations(w, n, e, issued, drawn[0]);
    }
  }

  lemma ReserveTermGrows(w: Cluster, n: int, e: Effect)
    requires NodesOk(w) && WinsOk(w) && BlocksOk(w) && n in w.nodes && LawfulBlock(w, n, e)
    requires e.node.term >= w.nodes[n].term && w.nodes[n].nextGSN <= w.nodes[n].confirmedUpTo
    ensures e.node.reserveTerm >= w.nodes[n].reserveTerm
  {
    assert BlockOk(w, n);
    var win :| win in w.wins && win.term == w.nodes[n].reserveTerm && win.leader == n;
    assert WinOk(w, win);
  }

  lemma DrawKeepsAllocations(w: Cluster, n: int, e: Effect, issued: seq<Allocation>, a: Allocation)
    requires WinsOk(w) && BlocksOk(w) && n in w.nodes && AllocationsOk(w, issued)
    requires AllocationsOk(Perform(w, n, e), issued)
    requires w.nodes[n].nextGSN <= w.nodes[n].confirmedUpTo && e.node.nextGSN == w.nodes[n].nextGSN + 1
    requires e.node.reserveTerm >= w.nodes[n].reserveTerm
    requires a == Allocation(n, w.nodes[n].reserveTerm, w.nodes[n].nextGSN, w.nodes[n].confirmedUpTo)
    ensures AllocationsOk(Perform(w, n, e), issued + [a])
  {
    DrawIsOk(w, n, e, a);
    forall i | 0 <= i < |issued| && issued[i].term == a.term
      ensures issued[i].gsn < a.gsn
    {
      DrawIsHigher(w, n, issued, i);
    }
  }

  lemma InitialInv(members: set<int>, bootstrap: int)
    requires Group(members) && bootstrap in members
    ensures Inv(Initial(members, bootstrap))
  {
    var w := Initial(members, bootstrap);
    assert w.nodes.Keys == members;
    assert Win(0, bootstrap, members, 1) in w.wins;
    assert Leads(w, 0, bootstrap);
  }

  lemma {:induction false} RunInv(members: set<int>, bootstrap: int, steps: seq<Step>)
    requires Group(members) && bootstrap in members
    ensures var w := Run(members, bootstrap, steps); Inv(w.cluster) && AllocationsOk(w.cluster, w.issued)
  {
    if steps == [] {
      InitialInv(members, bootstrap);
    } else {
      RunInv(members, bootstrap, steps[..|steps| - 1]);
      StepKeepsInv(Run(members, bootstrap, steps[..|steps| - 1]), steps[|steps| - 1]);
    }
  }

  // ----- the safety theorems, for every run -----

  /** If a majority ever acknowledged a reservation of term t, every leader of a later
      term resumed above it, whichever of the two came first. */
  lemma ResumeAboveConfirmed(members: set<int>, bootstrap: int, steps: seq<Step>, term: nat, upTo: nat, win: Win)
    requires Group(members) && bootstrap in members
    requires Confirmed(Run(members, bootstrap, steps).cluster, term, upTo)
    requires win in Run(members, bootstrap, steps).cluster.wins && win.term > term
    ensures upTo < win.resume
  {
    var w := Run(members, bootstrap, steps).cluster;
    RunInv(members, bootstrap, steps);
    LaterTermsResumeAbove(w, term, upTo, win);
  }

  lemma LaterTermsResumeAbove(w: Cluster, term: nat, upTo: nat, win: Win)
    requires Inv(w) && Confirmed(w, term, upTo) && win in w.wins && win.term > term
    ensures upTo < win.resume
  {
    assert WinOk(w, win);
    var v := MajoritiesMeet(Markers(w, term, upTo), win.voters, w.nodes.Keys);
    assert Voted(w.ballots, v, win.term, win.leader, win.resume - 1);
    assert Mark(v, term, upTo) in w.marks;
  }

  /** At most one node is ever elected in a term. */
  lemma ElectionSafety(members: set<int>, bootstrap: int, steps: seq<Step>, win1: Win, win2: Win)
    requires Group(members) && bootstrap in members
    requires win1 in Run(members, bootstrap, steps).cluster.wins && win2 in Run(members, bootstrap, steps).cluster.wins
    requires win1.term == win2.term
    ensures win1 == win2
  {
    RunInv(members, bootstrap, steps);
  }

  /** A node in the role of leader is the one elected in its term, so there are never
      two leaders of one term at the same time either. */
  lemma OneLeaderPerTerm(members: set<int>, bootstrap: int, steps: seq<Step>, n1: int, n2: int)
    requires Group(members) && bootstrap in members
    requires n1 in Run(members, bootstrap, steps).cluster.nodes && n2 in Run(members, bootstrap, steps).cluster.nodes
    requires Run(members, bootstrap, steps).cluster.nodes[n1].status == Leader
    requires Run(members, bootstrap, steps).cluster.nodes[n2].status == Leader
    requires Run(members, bootstrap, steps).cluster.nodes[n1].term == Run(members, bootstrap, steps).cluster.nodes[n2].term
    ensures n1 == n2
  {
    RunInv(members, bootstrap, steps);
  }

  /** No two successful allocations, at any nodes and in any terms, return the same GSN.
      Within a term GSNs ascend in time; across terms they are ordered by term, although
      a deposed leader may allocate long after its successor. */
  lemma GsnUniqueness(members: set<int>, bootstrap: int, steps: seq<Step>, i: nat, j: nat)
    requires Group(members) && bootstrap in members
    requires i < j < |Run(members, bootstrap, steps).issued|
    ensures
      var a, b := Run(members, bootstrap, steps).issued[i], Run(members, bootstrap, steps).issued[j];
      && a.gsn != b.gsn
      && (a.term <= b.term ==> a.gsn < b.gsn)
      && (a.term > b.term ==> a.gsn > b.gsn)
  {
    var w := Run(members, bootstrap, steps);
    RunInv(members, bootstrap, steps);
    var a, b := w.issued[i], w.issued[j];
    assert AllocationOk(w.cluster, a) && AllocationOk(w.cluster, b);
    if a.term < b.term {
      EarlierTermsAreBelow(w.cluster, a, b);
    } else if b.term < a.term {
      EarlierTermsAreBelow(w.cluster, b, a);
    }
  }

  lemma EarlierTermsAreBelow(w: Cluster, a: Allocation, b: Allocation)
    requires Inv(w) && AllocationOk(w, a) && AllocationOk(w, b) && a.term < b.term
    ensures a.gsn < b.gsn
  {
    var win :| win in w.wins && win.term == b.term && win.leader == b.node && win.resume <= b.gsn;
    LaterTermsResumeAbove(w, a.term, a.upTo, win);
  }

  /** Every GSN handed out lies inside a reservation that a majority acknowledged in the
      term it was handed out for, at or above where that term's leader resumed. */
  lemma IssuedInsideConfirmedBlock(members: set<int>, bootstrap: int, steps: seq<Step>, i: nat)
    requires Group(members) && bootstrap in members
    requires i < |Run(members, bootstrap, steps).issued|
    ensures
      var w := Run(members, bootstrap, steps);
      var a := w.issued[i];
      && (exists upTo: nat :: a.gsn <= upTo && Confirmed(w.cluster, a.term, upTo))
      && (exists win :: win in w.cluster.wins && win.term == a.term && win.leader == a.node && win.resume <= a.gsn)
  {
    RunInv(members, bootstrap, steps);
    var w := Run(members, bootstrap, steps);
    assert AllocationOk(w.cluster, w.issued[i]);
  }
}
