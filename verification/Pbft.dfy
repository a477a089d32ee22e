/** One PBFT instance: the normal case of one view over the sequence numbers of a segment.
    `Instance` is the state as a value, the functions say what each handler does to it, and
    class `PbftInstance` keeps the same state in fields updated in place. */
module Pbft {
  import opened Quorums
  import opened Requests

  /** Stands for the requests of a proposal; the flag `aborted` is not part of what is digested. */
  type Digest = int

  /** The state of one sequence number. A commit message that has been counted stays in
      `commitMsgs` as None, so that its sender cannot be counted again. */
  datatype Batch = Batch(
    preprepared: bool,
    prepared: bool,
    committed: bool,
    digest: Digest,
    aborted: bool,
    prepareMsgs: map<int, Digest>,
    commitMsgs: map<int, Option<Digest>>,
    validCommits: nat)

  datatype Instance = Instance(
    own: int,
    nodes: nat,
    leaders: seq<int>,
    view: nat,
    inViewChange: bool,
    batches: map<int, Batch>)

  datatype Body =
    | Preprepare(sn: int, view: nat, leader: int, digest: Digest, aborted: bool)
    | Prepare(sn: int, view: nat, digest: Digest)
    | Commit(sn: int, view: nat, digest: Digest)

  /** A message with its header: the sender and the sequence number it is about. */
  datatype Message = Message(sender: int, sn: int, body: Body)

  /** What a node thinks of the requests in a proposal. */
  datatype Verdict = Acceptable | Malformed | Refused

  /** The entry announced to the log: which requests, and whether the leader is suspected. */
  datatype Decision = Decision(sn: int, digest: Digest, aborted: bool)

  datatype Effect = Effect(state: Instance, sent: set<Message>, decided: set<Decision>)

  const EMPTY_BATCH := Batch(false, false, false, 0, false, map[], map[], 0)

  function Leader(s: Instance, view: nat): int
    requires s.leaders != []
  {
    s.leaders[view % |s.leaders|]
  }

  function Quiet(s: Instance): Effect {
    Effect(s, {}, {})
  }

  /** Asks for the next view and ignores the messages of this one from now on. */
  function LeaveView(s: Instance): Effect {
    Quiet(s.(view := s.view + 1, inViewChange := true))
  }

  function Matching(b: Batch): set<int> {
    set p | p in b.prepareMsgs && b.prepareMsgs[p] == b.digest
  }

  predicate IsPrepared(b: Batch, faults: nat) {
    b.preprepared && |Matching(b)| >= 2 * faults
  }

  /** Senders of matching commits that have not been counted. */
  function Uncounted(b: Batch): set<int> {
    set p | p in b.commitMsgs && b.commitMsgs[p] == Some(b.digest)
  }

  /** Senders of commits that have been counted. */
  function Counted(b: Batch): set<int> {
    set p | p in b.commitMsgs && b.commitMsgs[p] == None
  }

  function CountCommits(b: Batch): Batch {
    b.(commitMsgs := map p | p in b.commitMsgs :: if b.commitMsgs[p] == Some(b.digest) then None else b.commitMsgs[p],
       validCommits := b.validCommits + |Uncounted(b)|)
  }

  function CheckCommits(b: Batch, faults: nat): (Batch, bool) {
    if !b.preprepared || !b.prepared then (b, false)
    else (CountCommits(b), CountCommits(b).validCommits >= 2 * faults + 1)
  }

  /** Becomes prepared, with the own commit, when there are enough prepares. */
  function TryPrepare(b: Batch, own: int, faults: nat): Batch {
    if !b.prepared && IsPrepared(b, faults)
    then b.(prepared := true, commitMsgs := b.commitMsgs[own := Some(b.digest)])
    else b
  }

  function TryCommit(b: Batch, faults: nat): Batch {
    if b.committed then b
    else CheckCommits(b, faults).0.(committed := CheckCommits(b, faults).1)
  }

  function Put(s: Instance, sn: int, b: Batch): Instance {
    s.(batches := s.batches[sn := b])
  }

  /** What follows once a message has changed the batch of `sn` into `b`. */
  function Progress(s: Instance, sn: int, b: Batch, sent: set<Message>): Effect {
    var b1 := TryPrepare(b, s.own, Faults(s.nodes));
    var b2 := TryCommit(b1, Faults(s.nodes));
    Effect(Put(s, sn, b2),
           sent + if b1.prepared && !b.prepared then {Message(s.own, sn, Commit(sn, s.view, b.digest))} else {},
           if b2.committed && !b.committed then {Decision(sn, b.digest, b.aborted)} else {})
  }

  lemma ProgressOnPut(s: Instance, sn: int, b: Batch, sent: set<Message>)
    ensures Progress(Put(s, sn, b), sn, b, sent) == Progress(s, sn, b, sent)
  {
    var b2 := TryCommit(TryPrepare(b, s.own, Faults(s.nodes)), Faults(s.nodes));
    assert s.batches[sn := b][sn := b2] == s.batches[sn := b2];
  }

  lemma ProgressSends(s: Instance, sn: int, b: Batch, first: Message)
    ensures var e := Progress(s, sn, b, {});
      Progress(s, sn, b, {first}) == Effect(e.state, {first} + e.sent, e.decided)
  {
  }

  /** The leader proposes; it sends no prepare of its own. Fresh proposals are made in view 0 only. */
  function Propose(s: Instance, sn: int, digest: Digest): Effect
    requires sn in s.batches
  {
    if s.view > 0 then Quiet(s)
    else
      Effect(Put(s, sn, s.batches[sn].(digest := digest, aborted := false, preprepared := true)),
             {Message(s.own, sn, Preprepare(sn, s.view, s.own, digest, false))}, {})
  }

  /** Whether a message of the view `view` is one for now: not old, not for later. */
  predicate IsCurrent(s: Instance, view: nat) {
    s.view == view && !s.inViewChange
  }

  function HandlePreprepare(s: Instance, m: Message, verdict: Verdict): Effect
    requires m.body.Preprepare? && s.leaders != []
  {
    var p := m.body;
    if m.sn != p.sn then Quiet(s)
    else if m.sender != p.leader then LeaveView(s)
    else if Leader(s, p.view) != p.leader then LeaveView(s)
    else if !IsCurrent(s, p.view) then Quiet(s)
    else if m.sn !in s.batches then Quiet(s)
    else
      var b := s.batches[m.sn];
      if b.committed then Quiet(s)
      else if b.preprepared then LeaveView(s)
      else
        match verdict
        case Malformed => LeaveView(s)
        case Refused => Quiet(s)
        case Acceptable => Accept(s, m.sn, p.digest, p.aborted)
  }

  /** Follows a proposal: prepares it, and does what earlier prepares and commits now allow. */
  function Accept(s: Instance, sn: int, digest: Digest, aborted: bool): Effect
    requires sn in s.batches
  {
    Progress(s, sn, Prepared(s.batches[sn], s.own, digest, aborted),
             {Message(s.own, sn, Prepare(sn, s.view, digest))})
  }

  function Prepared(b: Batch, own: int, digest: Digest, aborted: bool): Batch {
    b.(digest := digest, aborted := aborted, preprepared := true, prepareMsgs := b.prepareMsgs[own := digest])
  }

  function HandlePrepare(s: Instance, m: Message): Effect
    requires m.body.Prepare?
  {
    if m.sn != m.body.sn || !IsCurrent(s, m.body.view) || m.sn !in s.batches then Quiet(s)
    else
      var b := s.batches[m.sn];
      if m.sender in b.prepareMsgs then Quiet(s)
      else Progress(s, m.sn, b.(prepareMsgs := b.prepareMsgs[m.sender := m.body.digest]), {})
  }

  function HandleCommit(s: Instance, m: Message): Effect
    requires m.body.Commit?
  {
    if m.sn != m.body.sn || !IsCurrent(s, m.body.view) || m.sn !in s.batches then Quiet(s)
    else
      var b := s.batches[m.sn];
      if m.sender in b.commitMsgs then Quiet(s)
      else Committing(s, m.sn, b.(commitMsgs := b.commitMsgs[m.sender := Some(m.body.digest)]))
  }

  /** A commit cannot make a batch prepared; only commits are counted. */
  function Committing(s: Instance, sn: int, b: Batch): Effect {
    var b1 := TryCommit(b, Faults(s.nodes));
    Effect(Put(s, sn, b1), {}, if b1.committed && !b.committed then {Decision(sn, b.digest, b.aborted)} else {})
  }

  function Receive(s: Instance, m: Message, verdict: Verdict): Effect
    requires s.leaders != []
  {
    match m.body
    case Preprepare(_, _, _, _, _) => HandlePreprepare(s, m, verdict)
    case Prepare(_, _, _) => HandlePrepare(s, m)
    case Commit(_, _, _) => HandleCommit(s, m)
  }

  // ----- the loops over the message maps -----

  lemma DropOne(all: set<int>, rest: set<int>, p: int)
    requires p in rest
    ensures |all - (rest - {p})| == |all - rest| + if p in all then 1 else 0
  {
    if p in all {
      assert all - (rest - {p}) == (all - rest) + {p};
    } else {
      assert all - (rest - {p}) == all - rest;
    }
  }

  /** Counts the prepares that match, stopping as soon as there are enough. */
  method HasPrepared(b: Batch, nodes: nat) returns (yes: bool)
    ensures yes <==> IsPrepared(b, Faults(nodes))
  {
    if !b.preprepared {
      return false;
    }
    Cardinality(Matching(b), b.prepareMsgs.Keys);
    if |b.prepareMsgs| < 2 * Faults(nodes) {
      return false;
    }
    yes := CountMatching(b, 2 * Faults(nodes));
  }

  method CountMatching(b: Batch, enough: nat) returns (yes: bool)
    ensures yes <==> |Matching(b)| >= enough
  {
    var matching := 0;
    var rest := b.prepareMsgs.Keys;
    assert Matching(b) - rest == {};
    while rest != {}
      invariant rest <= b.prepareMsgs.Keys && matching == |Matching(b) - rest|
    {
      NotEmpty(rest);
      var p :| p in rest;
      DropOne(Matching(b), rest, p);
      rest := rest - {p};
      if b.prepareMsgs[p] != b.digest {
        continue;
      }
      matching := matching + 1;
      if matching >= enough {
        break;
      }
    }
    CountedSoFar(Matching(b), rest);
    return matching >= enough;
  }

  lemma CountedSoFar(all: set<int>, rest: set<int>)
    ensures |all - rest| <= |all| && (rest == {} ==> all - rest == all)
  {
    Cardinality(all - rest, all);
  }

  /** Counts the matching commits not counted before, in any order, and marks them. */
  method ValidateCommits(b: Batch) returns (r: Batch)
    ensures r == CountCommits(b)
  {
    MarkEnds(b);
    var msgs, valid := b.commitMsgs, b.validCommits;
    var rest := b.commitMsgs.Keys;
    while rest != {}
      invariant rest <= b.commitMsgs.Keys && msgs == MarkOutside(b, rest)
      invariant valid == b.validCommits + |Uncounted(b) - rest|
    {
      NotEmpty(rest);
      var p :| p in rest;
      CountOne(b, rest, p);
      if msgs[p] == Some(b.digest) {
        valid := valid + 1;
        msgs := msgs[p := None];
      }
      rest := rest - {p};
    }
    r := b.(commitMsgs := msgs, validCommits := valid);
  }

  /** The commit messages once those of the senders outside `rest` have been looked at. */
  function MarkOutside(b: Batch, rest: set<int>): map<int, Option<Digest>> {
    map p | p in b.commitMsgs :: if p !in rest && b.commitMsgs[p] == Some(b.digest) then None else b.commitMsgs[p]
  }

  lemma MarkEnds(b: Batch)
    ensures MarkOutside(b, b.commitMsgs.Keys) == b.commitMsgs && Uncounted(b) - b.commitMsgs.Keys == {}
    ensures MarkOutside(b, {}) == CountCommits(b).commitMsgs && Uncounted(b) - {} == Uncounted(b)
  {
  }

  lemma MarkOne(b: Batch, rest: set<int>, p: int)
    requires p in rest && rest <= b.commitMsgs.Keys
    ensures MarkOutside(b, rest)[p] == b.commitMsgs[p]
    ensures MarkOutside(b, rest - {p})
            == if b.commitMsgs[p] == Some(b.digest) then MarkOutside(b, rest)[p := None] else MarkOutside(b, rest)
  {
  }

  lemma CountOne(b: Batch, rest: set<int>, p: int)
    requires p in rest && rest <= b.commitMsgs.Keys
    ensures MarkOutside(b, rest)[p] == b.commitMsgs[p]
    ensures MarkOutside(b, rest - {p})
            == if b.commitMsgs[p] == Some(b.digest) then MarkOutside(b, rest)[p := None] else MarkOutside(b, rest)
    ensures |Uncounted(b) - (rest - {p})| == |Uncounted(b) - rest| + if b.commitMsgs[p] == Some(b.digest) then 1 else 0
  {
    MarkOne(b, rest, p);
    DropOne(Uncounted(b), rest, p);
  }

  method CommitsComplete(b: Batch, nodes: nat) returns (r: Batch, yes: bool)
    ensures (r, yes) == CheckCommits(b, Faults(nodes))
  {
    if !b.preprepared {
      return b, false;
    }
    if !b.prepared {
      return b, false;
    }
    r := ValidateCommits(b);
    yes := r.validCommits >= 2 * Faults(nodes) + 1;
  }

  /** An instance with its fields updated in place. Handlers return the messages they send;
      `decided` collects what was announced. */
  class PbftInstance {
    const own: int
    const nodes: nat
    const leaders: seq<int>
    var view: nat
    var inViewChange: bool
    var batches: map<int, Batch>
    var decided: set<Decision>

    function State(): Instance
      reads this
    {
      Instance(own, nodes, leaders, view, inViewChange, batches)
    }

    constructor (own: int, nodes: nat, leaders: seq<int>, view: nat, sns: set<int>)
      requires leaders != []
      ensures State() == Instance(own, nodes, leaders, view, false, map sn | sn in sns :: EMPTY_BATCH)
      ensures decided == {}
    {
      this.own, this.nodes, this.leaders, this.view := own, nodes, leaders, view;
      inViewChange, decided := false, {};
      batches := map sn | sn in sns :: EMPTY_BATCH;
    }

    method SendViewChange()
      modifies this`view, this`inViewChange
      ensures State() == LeaveView(old(State())).state
    {
      inViewChange := true;
      view := view + 1;
    }

    method SendPrepare(sn: int) returns (m: Message)
      requires sn in batches
      modifies this`batches
      ensures var b := old(batches[sn]);
        State() == Put(old(State()), sn, b.(prepareMsgs := b.prepareMsgs[own := b.digest]))
      ensures m == Message(own, sn, Prepare(sn, view, old(batches[sn]).digest))
    {
      var b := batches[sn];
      m := Message(own, sn, Prepare(sn, view, b.digest));
      batches := batches[sn := b.(prepareMsgs := b.prepareMsgs[own := b.digest])];
    }

    method SendCommit(sn: int) returns (m: Message)
      requires sn in batches
      modifies this`batches
      ensures var b := old(batches[sn]);
        State() == Put(old(State()), sn, b.(commitMsgs := b.commitMsgs[own := Some(b.digest)]))
      ensures m == Message(own, sn, Commit(sn, view, old(batches[sn]).digest))
    {
      var b := batches[sn];
      m := Message(own, sn, Commit(sn, view, b.digest));
      batches := batches[sn := b.(commitMsgs := b.commitMsgs[own := Some(b.digest)])];
    }

    method PrepareIfEnough(sn: int) returns (sent: set<Message>)
      requires sn in batches
      modifies this`batches
      ensures State() == Put(old(State()), sn, TryPrepare(old(batches[sn]), own, Faults(nodes)))
      ensures sent == if batches[sn].prepared && !old(batches[sn]).prepared
                      then {Message(own, sn, Commit(sn, view, old(batches[sn]).digest))} else {}
    {
      sent := {};
      assert batches == batches[sn := batches[sn]];
      if !batches[sn].prepared {
        var enough := HasPrepared(batches[sn], nodes);
        if enough {
          batches := batches[sn := batches[sn].(prepared := true)];
          var m := SendCommit(sn);
          sent := {m};
        }
      }
    }

    method CommitIfEnough(sn: int)
      requires sn in batches
      modifies this`batches, this`decided
      ensures State() == Put(old(State()), sn, TryCommit(old(batches[sn]), Faults(nodes)))
      ensures decided == old(decided) + if batches[sn].committed && !old(batches[sn]).committed
                                        then {Decision(sn, old(batches[sn]).digest, old(batches[sn]).aborted)} else {}
    {
      assert batches == batches[sn := batches[sn]];
      if !batches[sn].committed {
        var b, enough := CommitsComplete(batches[sn], nodes);
        batches := batches[sn := b];
        if enough {
          batches := batches[sn := b.(committed := true)];
          decided := decided + {Decision(sn, b.digest, b.aborted)};
        }
      }
    }

    method Advance(sn: int) returns (sent: set<Message>)
      requires sn in batches
      modifies this`batches, this`decided
      ensures State() == Progress(old(State()), sn, old(batches[sn]), {}).state
      ensures sent == Progress(old(State()), sn, old(batches[sn]), {}).sent
      ensures decided == old(decided) + Progress(old(State()), sn, old(batches[sn]), {}).decided
    {
      sent := PrepareIfEnough(sn);
      CommitIfEnough(sn);
    }

    method ProposeSN(sn: int, digest: Digest) returns (sent: set<Message>)
      requires sn in batches
      modifies this
      ensures State() == Propose(old(State()), sn, digest).state && sent == Propose(old(State()), sn, digest).sent
      ensures decided == old(decided)
    {
      if view > 0 {
        return {};
      }
      batches := batches[sn := batches[sn].(digest := digest, aborted := false, preprepared := true)];
      sent := {Message(own, sn, Preprepare(sn, view, own, digest, false))};
    }

    method AcceptProposal(sn: int, digest: Digest, aborted: bool) returns (sent: set<Message>)
      requires sn in batches
      modifies this`batches, this`decided
      ensures State() == Accept(old(State()), sn, digest, aborted).state
      ensures sent == Accept(old(State()), sn, digest, aborted).sent
      ensures decided == old(decided) + Accept(old(State()), sn, digest, aborted).decided
    {
      ghost var b1 := Prepared(batches[sn], own, digest, aborted);
      var prepare := PrepareProposal(sn, digest, aborted);
      ProgressOnPut(old(State()), sn, b1, {});
      ProgressSends(old(State()), sn, b1, prepare);
      var commit := Advance(sn);
      sent := {prepare} + commit;
    }

    method PrepareProposal(sn: int, digest: Digest, aborted: bool) returns (prepare: Message)
      requires sn in batches
      modifies this`batches
      ensures State() == Put(old(State()), sn, Prepared(old(batches[sn]), own, digest, aborted))
      ensures prepare == Message(own, sn, Prepare(sn, view, digest))
    {
      batches := batches[sn := batches[sn].(digest := digest, aborted := aborted, preprepared := true)];
      prepare := SendPrepare(sn);
      assert batches == old(batches)[sn := Prepared(old(batches[sn]), own, digest, aborted)];
    }

    method OnPreprepare(m: Message, verdict: Verdict) returns (sent: set<Message>)
      requires m.body.Preprepare? && leaders != []
      modifies this
      ensures State() == HandlePreprepare(old(State()), m, verdict).state
      ensures sent == HandlePreprepare(old(State()), m, verdict).sent
      ensures decided == old(decided) + HandlePreprepare(old(State()), m, verdict).decided
    {
      var p, sn := m.body, m.sn;
      sent := {};
      if sn != p.sn {
        return;
      }
      if m.sender != p.leader || leaders[p.view % |leaders|] != p.leader {
        SendViewChange();
        return;
      }
      if view > p.view || view < p.view || inViewChange || sn !in batches {
        return;
      }
      if batches[sn].committed {
        return;
      }
      if batches[sn].preprepared || verdict == Malformed {
        SendViewChange();
        return;
      }
      if verdict == Refused {
        return;
      }
      sent := AcceptProposal(sn, p.digest, p.aborted);
    }

    method OnPrepare(m: Message) returns (sent: set<Message>)
      requires m.body.Prepare?
      modifies this
      ensures State() == HandlePrepare(old(State()), m).state && sent == HandlePrepare(old(State()), m).sent
      ensures decided == old(decided) + HandlePrepare(old(State()), m).decided
    {
      var p, sn := m.body, m.sn;
      sent := {};
      if sn != p.sn || view > p.view || view < p.view || inViewChange || sn !in batches {
        return;
      }
      if m.sender in batches[sn].prepareMsgs {
        return;
      }
      ghost var b1 := batches[sn].(prepareMsgs := batches[sn].prepareMsgs[m.sender := p.digest]);
      ProgressOnPut(State(), sn, b1, {});
      batches := batches[sn := batches[sn].(prepareMsgs := batches[sn].prepareMsgs[m.sender := p.digest])];
      sent := Advance(sn);
    }

    method OnCommit(m: Message)
      requires m.body.Commit?
      modifies this
      ensures State() == HandleCommit(old(State()), m).state
      ensures decided == old(decided) + HandleCommit(old(State()), m).decided
    {
      var p, sn := m.body, m.sn;
      if sn != p.sn || view > p.view || view < p.view || inViewChange || sn !in batches {
        return;
      }
      if m.sender in batches[sn].commitMsgs {
        return;
      }
      batches := batches[sn := batches[sn].(commitMsgs := batches[sn].commitMsgs[m.sender := Some(p.digest)])];
      CommitIfEnough(sn);
    }
  }
}
