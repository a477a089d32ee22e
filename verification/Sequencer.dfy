/** The sequencer of group 0: one node's state and the handlers that change it.
    `Node` is the state as a value, the functions say what each handler does to it,
    and class `Sequencer` carries the state in fields updated in place. */
module Sequencer {

  /** Size of every block of GSNs a leader reserves. */
  const GSN_BLOCK_SIZE := 100

  datatype Status = Follower | Candidate | Leader

  /** The fields of a node that decide elections and GSN allocation. `votedFor` is -1
      when the node has not voted; `pending` is 0 when no reservation is outstanding. */
  datatype Node = Node(
    id: int,
    term: nat,
    votedFor: int,
    status: Status,
    leader: int,
    votes: set<int>,
    voteMaxAccepted: nat,
    nextGSN: nat,
    confirmedUpTo: nat,
    acceptedUpTo: nat,
    pending: nat,
    reserveTerm: nat,
    reserveAcks: set<int>)

  /** Messages between members of group 0. Requests, reservations and heartbeats are
      broadcast to every other member, answers go to `dst`. */
  datatype Message =
    | VoteRequest(src: int, term: nat)
    | VoteResponse(src: int, dst: int, term: nat, granted: bool, accepted: nat)
    | Reserve(src: int, term: nat, upTo: nat)
    | ReserveAck(src: int, dst: int, term: nat, upTo: nat)
    | Heartbeat(src: int, term: nat)

  /** A vote cast, with the mark it carried; and a reservation mark acknowledged.
      A node's own vote and own acknowledgement count, although they are not sent. */
  datatype Ballot = Ballot(voter: int, term: nat, candidate: int, accepted: nat)
  datatype Mark = Mark(voter: int, term: nat, upTo: nat)

  /** What one handler does: the new state, the messages sent, and the ballots and
      marks this node gave. */
  datatype Effect = Effect(node: Node, sent: set<Message>, cast: set<Ballot>, marked: set<Mark>)

  function Max(a: nat, b: nat): nat {
    if a > b then a else b
  }

  function Quiet(s: Node): Effect {
    Effect(s, {}, {}, {})
  }

  /** Term 0 is the deterministic bootstrap: everybody has "voted" for the same leader. */
  function InitialNode(id: int, bootstrap: int): Node {
    Node(id, 0, bootstrap, if id == bootstrap then Leader else Follower, bootstrap, {}, 0, 1, 0, 0, 0, 0, {})
  }

  function Confirm(s: Node): Node {
    s.(confirmedUpTo := s.pending, pending := 0)
  }

  /** A leader opens the next block, or repeats a request whose answers are late.
      `recent` is the outcome of the one-second test on the last request. */
  function RequestReservation(s: Node, size: nat, recent: bool): Effect {
    if !(s.status == Leader && s.leader == s.id) then Quiet(s)
    else if s.pending > 0 && s.reserveTerm == s.term && recent then Quiet(s)
    else
      var opens := s.pending == 0 || s.reserveTerm != s.term;
      var upTo := Max(s.confirmedUpTo, if s.nextGSN > 0 then s.nextGSN - 1 else 0) + GSN_BLOCK_SIZE;
      var s1 :=
        if opens then
          s.(pending := upTo, reserveTerm := s.term, reserveAcks := {s.id},
             acceptedUpTo := Max(s.acceptedUpTo, upTo))
        else s;
      var marked := if opens then {Mark(s.id, s.term, upTo)} else {};
      if |s1.reserveAcks| > size / 2 then Effect(Confirm(s1), {}, {}, marked)
      else Effect(s1, {Reserve(s.id, s.term, s1.pending)}, {}, marked)
  }

  /** One attempt at allocating: 0 when the confirmed block is exhausted. */
  function Allocate(s: Node, size: nat, recent: bool): (r: (Effect, nat)) {
    if s.nextGSN > s.confirmedUpTo then (RequestReservation(s, size, recent), 0)
    else
      var s1 := s.(nextGSN := s.nextGSN + 1);
      if s.confirmedUpTo - s.nextGSN < GSN_BLOCK_SIZE / 2
      then (RequestReservation(s1, size, recent), s.nextGSN)
      else (Quiet(s1), s.nextGSN)
  }

  function StartElection(s: Node): Effect {
    if s.status == Leader then Quiet(s)
    else
      Effect(
        s.(term := s.term + 1, status := Candidate, votedFor := s.id, votes := {s.id},
           voteMaxAccepted := s.acceptedUpTo),
        {VoteRequest(s.id, s.term + 1)}, {Ballot(s.id, s.term + 1, s.id, s.acceptedUpTo)}, {})
  }

  function HandleVoteRequest(s: Node, src: int, term: nat): Effect {
    var s1 := if term > s.term then s.(term := term, votedFor := -1, status := Follower) else s;
    var granted := term == s1.term && (s1.votedFor == -1 || s1.votedFor == src);
    var s2 := if granted then s1.(votedFor := src) else s1;
    Effect(s2, {VoteResponse(s.id, src, s2.term, granted, s2.acceptedUpTo)},
           if granted then {Ballot(s.id, term, src, s2.acceptedUpTo)} else {}, {})
  }

  /** The new leader resumes above the highest mark its majority knows of. */
  function Resume(s: Node, size: nat): Effect {
    var resume := Max(Max(s.voteMaxAccepted, s.acceptedUpTo) + 1, s.nextGSN);
    RequestReservation(s.(nextGSN := resume, confirmedUpTo := resume - 1, pending := 0), size, false)
  }

  function HandleVoteResponse(s: Node, size: nat, src: int, term: nat, granted: bool, accepted: nat): Effect {
    if term > s.term then Quiet(s.(term := term, status := Follower, votedFor := -1))
    else if s.status != Candidate || term != s.term || !granted then Quiet(s)
    else
      var s1 := s.(votes := s.votes + {src}, voteMaxAccepted := Max(s.voteMaxAccepted, accepted));
      if |s1.votes| > size / 2 then Resume(s1.(status := Leader, leader := s.id), size)
      else Quiet(s1)
  }

  /** Accepts a reservation of its own or a newer term, without adopting the newer term. */
  function HandleReserve(s: Node, src: int, term: nat, upTo: nat): Effect {
    if term < s.term then Quiet(s)
    else
      Effect(s.(acceptedUpTo := Max(s.acceptedUpTo, upTo)),
             {ReserveAck(s.id, src, term, upTo)}, {}, {Mark(s.id, term, upTo)})
  }

  function HandleReserveAck(s: Node, size: nat, src: int, term: nat, upTo: nat): Effect {
    if s.pending != upTo || s.reserveTerm != term then Quiet(s)
    else
      var s1 := s.(reserveAcks := s.reserveAcks + {src});
      Quiet(if |s1.reserveAcks| > size / 2 then Confirm(s1) else s1)
  }

  function HandleHeartbeat(s: Node, leaderID: int, term: nat): Effect {
    if term < s.term then Quiet(s)
    else Quiet(s.(term := term, leader := leaderID, votedFor := leaderID, status := Follower))
  }

  function SendHeartbeat(s: Node): Effect {
    if s.status == Leader then Effect(s, {Heartbeat(s.id, s.term)}, {}, {}) else Quiet(s)
  }

  /** A node receives a message. */
  function Receive(s: Node, size: nat, m: Message): Effect {
    match m
    case VoteRequest(src, term) => HandleVoteRequest(s, src, term)
    case VoteResponse(src, _, term, granted, accepted) => HandleVoteResponse(s, size, src, term, granted, accepted)
    case Reserve(src, term, upTo) => HandleReserve(s, src, term, upTo)
    case ReserveAck(src, _, term, upTo) => HandleReserveAck(s, size, src, term, upTo)
    case Heartbeat(src, term) => HandleHeartbeat(s, src, term)
  }

  /** The bootstrap leader: the smallest member, found by every node from the same list. */
  method FindBootstrap(members: seq<int>) returns (leader: int)
    ensures members == [] ==> leader == -1
    ensures members != [] ==> leader in members && forall m :: m in members ==> leader <= m
  {
    leader := -1;
    if |members| > 0 {
      leader := members[0];
      for i := 0 to |members|
        invariant leader in members
        invariant forall k :: 0 <= k < i ==> leader <= members[k]
      {
        if members[i] < leader {
          leader := members[i];
        }
      }
    }
  }

  /** A node with its fields updated in place. Each handler returns the messages it sends. */
  class SequencerNode {
    const id: int
    const members: seq<int>

    var term: nat
    var votedFor: int
    var status: Status
    var leader: int
    var votes: set<int>
    var voteMaxAccepted: nat
    var nextGSN: nat
    var confirmedUpTo: nat
    var acceptedUpTo: nat
    var pending: nat
    var reserveTerm: nat
    var reserveAcks: set<int>

    function State(): Node
      reads this
    {
      Node(id, term, votedFor, status, leader, votes, voteMaxAccepted, nextGSN, confirmedUpTo,
           acceptedUpTo, pending, reserveTerm, reserveAcks)
    }

    constructor (id: int, members: seq<int>)
      requires members != []
      ensures this.id == id && this.members == members
      ensures exists b :: b in members && (forall m :: m in members ==> b <= m) && State() == InitialNode(id, b)
    {
      var bootstrap := FindBootstrap(members);
      this.id, this.members := id, members;
      term, votedFor, leader := 0, bootstrap, bootstrap;
      status := if id == bootstrap then Leader else Follower;
      votes, voteMaxAccepted := {}, 0;
      nextGSN, confirmedUpTo, acceptedUpTo := 1, 0, 0;
      pending, reserveTerm, reserveAcks := 0, 0, {};
    }

    method ConfirmReservation()
      modifies this
      ensures State() == Confirm(old(State()))
    {
      confirmedUpTo := pending;
      pending := 0;
    }

    method RequestReservationLocked(recent: bool) returns (sent: set<Message>)
      modifies this
      ensures State() == RequestReservation(old(State()), |members|, recent).node
      ensures sent == RequestReservation(old(State()), |members|, recent).sent
    {
      sent := {};
      if status != Leader || leader != id {
        return;
      }
      if pending > 0 && reserveTerm == term && recent {
        return;
      }
      if pending == 0 || reserveTerm != term {
        var base := confirmedUpTo;
        if nextGSN > 0 && nextGSN - 1 > base {
          base := nextGSN - 1;
        }
        pending := base + GSN_BLOCK_SIZE;
        reserveTerm := term;
        reserveAcks := {id};
        if pending > acceptedUpTo {
          acceptedUpTo := pending;
        }
      }
      if |reserveAcks| > |members| / 2 {
        ConfirmReservation();
        return;
      }
      sent := {Reserve(id, term, pending)};
    }

    method AllocateGSN(recent: bool) returns (gsn: nat, sent: set<Message>)
      modifies this
      ensures State() == Allocate(old(State()), |members|, recent).0.node
      ensures sent == Allocate(old(State()), |members|, recent).0.sent
      ensures gsn == Allocate(old(State()), |members|, recent).1
    {
      if nextGSN > confirmedUpTo {
        sent := RequestReservationLocked(recent);
        return 0, sent;
      }
      gsn := nextGSN;
      nextGSN := nextGSN + 1;
      sent := {};
      if confirmedUpTo - gsn < GSN_BLOCK_SIZE / 2 {
        sent := RequestReservationLocked(recent);
      }
    }

    method OnElectionTimeout() returns (sent: set<Message>)
      modifies this
      ensures State() == StartElection(old(State())).node && sent == StartElection(old(State())).sent
    {
      if status == Leader {
        return {};
      }
      term := term + 1;
      status := Candidate;
      votedFor := id;
      votes := {id};
      voteMaxAccepted := acceptedUpTo;
      sent := {VoteRequest(id, term)};
    }

    method OnVoteRequest(src: int, t: nat) returns (sent: set<Message>)
      modifies this
      ensures State() == HandleVoteRequest(old(State()), src, t).node
      ensures sent == HandleVoteRequest(old(State()), src, t).sent
    {
      if t > term {
        term := t;
        votedFor := -1;
        status := Follower;
      }
      var granted := false;
      if t == term && (votedFor == -1 || votedFor == src) {
        votedFor := src;
        granted := true;
      }
      sent := {VoteResponse(id, src, term, granted, acceptedUpTo)};
    }

    method ResumeCounter() returns (sent: set<Message>)
      modifies this
      ensures State() == Resume(old(State()), |members|).node && sent == Resume(old(State()), |members|).sent
    {
      var maxAccepted := voteMaxAccepted;
      if acceptedUpTo > maxAccepted {
        maxAccepted := acceptedUpTo;
      }
      var resume := maxAccepted + 1;
      if nextGSN > resume {
        resume := nextGSN;
      }
      nextGSN := resume;
      confirmedUpTo := resume - 1;
      pending := 0;
      sent := RequestReservationLocked(false);
    }

    method OnVoteResponse(src: int, t: nat, granted: bool, accepted: nat) returns (sent: set<Message>)
      modifies this
      ensures State() == HandleVoteResponse(old(State()), |members|, src, t, granted, accepted).node
      ensures sent == HandleVoteResponse(old(State()), |members|, src, t, granted, accepted).sent
    {
      sent := {};
      if t > term {
        term := t;
        status := Follower;
        votedFor := -1;
        return;
      }
      if status != Candidate || t != term || !granted {
        return;
      }
      votes := votes + {src};
      if accepted > voteMaxAccepted {
        voteMaxAccepted := accepted;
      }
      if |votes| > |members| / 2 {
        status := Leader;
        leader := id;
        sent := ResumeCounter();
      }
    }

    method OnReserve(src: int, t: nat, upTo: nat) returns (sent: set<Message>)
      modifies this
      ensures State() == HandleReserve(old(State()), src, t, upTo).node
      ensures sent == HandleReserve(old(State()), src, t, upTo).sent
    {
      if t < term {
        return {};
      }
      if upTo > acceptedUpTo {
        acceptedUpTo := upTo;
      }
      sent := {ReserveAck(id, src, t, upTo)};
    }

    method OnReserveAck(src: int, t: nat, upTo: nat)
      modifies this
      ensures State() == HandleReserveAck(old(State()), |members|, src, t, upTo).node
      ensures HandleReserveAck(old(State()), |members|, src, t, upTo).sent == {}
    {
      if pending != upTo || reserveTerm != t {
        return;
      }
      reserveAcks := reserveAcks + {src};
      if |reserveAcks| > |members| / 2 {
        ConfirmReservation();
      }
    }

    method OnHeartbeat(leaderID: int, t: nat)
      modifies this
      ensures State() == HandleHeartbeat(old(State()), leaderID, t).node
      ensures HandleHeartbeat(old(State()), leaderID, t).sent == {}
    {
      if t < term {
        return;
      }
      term := t;
      leader := leaderID;
      votedFor := leaderID;
      status := Follower;
    }
  }
}
