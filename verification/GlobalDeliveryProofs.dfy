/** The global deliverer in closed form: after any history it has delivered, in ascending
    order and once each, exactly the GSNs that touch the node up to the largest point
    below which everything is classified and everything touching the node is committed. */
module GlobalDeliveryProofs {
  import opened Requests
  import opened Metas
  import opened GlobalDelivery

  datatype Event =
    | Meta(gsn: nat, groups: seq<nat>)
    | Skip(from: nat, to: nat)
    | Commit(req: Option<Request>)

  function Handle(g: Merger, e: Event): (Merger, seq<Delivery>) {
    match e
    case Meta(gsn, groups) => GlobalDelivery.OnMeta(g, gsn, groups)
    case Skip(from, to) => GlobalDelivery.OnSkip(g, from, to)
    case Commit(req) => OnCommit(g, req)
  }

  /** A node of the groups `mine` after a history: its state and all it delivered. */
  function Node(mine: set<nat>, events: seq<Event>): (Merger, seq<Delivery>) {
    if events == [] then (NewMerger(mine), [])
    else
      var (g, sent) := Node(mine, events[..|events| - 1]);
      var (g1, more) := Handle(g, events[|events| - 1]);
      (g1, sent + more)
  }

  // ----- what a history says, whatever its order of arrival does to the merger -----

  /** The groups of each classified GSN, empty when skipped: the first word about it counts. */
  function FatesOf(events: seq<Event>): map<nat, seq<nat>> {
    if events == [] then map[]
    else
      var fates := FatesOf(events[..|events| - 1]);
      match events[|events| - 1]
      case Meta(gsn, groups) => if gsn == 0 || gsn in fates then fates else fates[gsn := groups]
      case Skip(from, to) => if from == 0 then fates else WithSkips(fates, 0, from, to)
      case Commit(_) => fates
  }

  /** The first request committed for each GSN. */
  function CommitsOf(events: seq<Event>): map<nat, Request> {
    if events == [] then map[]
    else
      var commits := CommitsOf(events[..|events| - 1]);
      match events[|events| - 1]
      case Commit(req) =>
        if req == None || req.value.gsn == 0 || req.value.gsn in commits then commits
        else commits[req.value.gsn := req.value]
      case _ => commits
  }

  /** Says what becomes of a GSN: its META, or a skip of a range with it. */
  predicate Tells(e: Event, g: nat) {
    match e
    case Meta(gsn, _) => gsn == g && g > 0
    case Skip(from, to) => 0 < from <= g <= to
    case Commit(_) => false
  }

  /** The first event of a history that tells of a GSN. */
  predicate FirstToTell(events: seq<Event>, g: nat, i: nat) {
    i < |events| && Tells(events[i], g) && forall j :: 0 <= j < i ==> !Tells(events[j], g)
  }

  /** A GSN is classified exactly when some event told of it. */
  lemma {:induction false} FatesExactly(events: seq<Event>, g: nat)
    ensures g in FatesOf(events) <==> exists i :: 0 <= i < |events| && Tells(events[i], g)
  {
    if events != [] {
      var before, last := events[..|events| - 1], |events| - 1;
      FatesExactly(before, g);
      TellsOneMore(FatesOf(before), events, g);
      assert forall i :: 0 <= i < last ==> events[i] == before[i];
    }
  }

  lemma TellsOneMore(fates: map<nat, seq<nat>>, events: seq<Event>, g: nat)
    requires events != [] && fates == FatesOf(events[..|events| - 1])
    ensures g in FatesOf(events) <==> g in fates || Tells(events[|events| - 1], g)
    ensures g in fates ==> FatesOf(events)[g] == fates[g]
    ensures g !in fates && Tells(events[|events| - 1], g) ==>
      FatesOf(events)[g] == match events[|events| - 1] case Meta(_, groups) => groups case _ => []
  {
  }

  /** And its fate is what the first such event said: the groups of a META, nobody for a skip. */
  lemma {:induction false} FirstWordCounts(events: seq<Event>, g: nat, i: nat)
    requires FirstToTell(events, g, i)
    ensures g in FatesOf(events)
    ensures FatesOf(events)[g] == match events[i] case Meta(_, groups) => groups case _ => []
  {
    var before, last := events[..|events| - 1], |events| - 1;
    TellsOneMore(FatesOf(before), events, g);
    if i < last {
      assert before[i] == events[i] && forall j :: 0 <= j < i ==> before[j] == events[j];
      FirstWordCounts(before, g, i);
    } else {
      FatesExactly(before, g);
      assert forall j :: 0 <= j < last ==> before[j] == events[j];
    }
  }

  /** A request decided under a GSN. */
  predicate Brings(e: Event, g: nat) {
    e.Commit? && e.req.Some? && e.req.value.gsn == g && g > 0
  }

  /** The request of a GSN is that of the first event that brings one. */
  lemma {:induction false} FirstCommitCounts(events: seq<Event>, g: nat, i: nat)
    requires i < |events| && Brings(events[i], g) && forall j :: 0 <= j < i ==> !Brings(events[j], g)
    ensures g in CommitsOf(events) && CommitsOf(events)[g] == events[i].req.value
  {
    var before, last := events[..|events| - 1], |events| - 1;
    if i < last {
      assert before[i] == events[i] && forall j :: 0 <= j < i ==> before[j] == events[j];
      FirstCommitCounts(before, g, i);
    } else {
      assert forall j :: 0 <= j < last ==> before[j] == events[j];
      CommitsExactly(before, g);
    }
  }

  lemma {:induction false} CommitsExactly(events: seq<Event>, g: nat)
    ensures g in CommitsOf(events) <==> exists i :: 0 <= i < |events| && Brings(events[i], g)
  {
    if events != [] {
      var before, last := events[..|events| - 1], |events| - 1;
      CommitsExactly(before, g);
      assert g in CommitsOf(events) <==> g in CommitsOf(before) || Brings(events[last], g);
      assert forall i :: 0 <= i < last ==> events[i] == before[i];
    }
  }

  lemma TouchesExactly(mine: set<nat>, groups: seq<nat>)
    ensures Touches(mine, groups) <==> mine * (set g | g in groups) != {}
  {
    var both := mine * (set g | g in groups);
    if i :| 0 <= i < |groups| && groups[i] in mine {
      assert groups[i] in both;
    } else {
      assert forall g :: g !in both;
    }
  }

  /** Classified, and committed if it touches the node. */
  predicate IsSettled(mine: set<nat>, fates: map<nat, seq<nat>>, commits: map<nat, Request>, gsn: nat) {
    gsn in fates && (Touches(mine, fates[gsn]) ==> gsn in commits)
  }

  function Settled(mine: set<nat>, fates: map<nat, seq<nat>>, commits: map<nat, Request>): set<nat> {
    set gsn | gsn in fates && IsSettled(mine, fates, commits, gsn)
  }

  /** The GSNs up to `k` that touch the node, in ascending order, with their groups and requests. */
  function Ordered(mine: set<nat>, fates: map<nat, seq<nat>>, commits: map<nat, Request>, k: nat): seq<Delivery> {
    if k == 0 then []
    else Ordered(mine, fates, commits, k - 1) + At(mine, fates, commits, k)
  }

  function At(mine: set<nat>, fates: map<nat, seq<nat>>, commits: map<nat, Request>, k: nat): seq<Delivery> {
    if k in fates && k in commits && Touches(mine, fates[k]) then [Delivery(k, fates[k], commits[k])] else []
  }

  // ----- the invariant -----

  ghost predicate Grows<V>(m: map<nat, V>, m': map<nat, V>) {
    forall j :: j in m ==> j in m' && m'[j] == m[j]
  }

  ghost predicate KeepsAbove<V>(kept: map<nat, V>, all: map<nat, V>, k: nat) {
    && (forall g {:trigger g in kept} {:trigger g in all} :: g in kept <==> g in all && g > k)
    && (forall g {:trigger kept[g]} {:trigger all[g]} :: g in kept ==> kept[g] == all[g])
  }

  ghost predicate Represents(g: Merger, mine: set<nat>, fates: map<nat, seq<nat>>, commits: map<nat, Request>) {
    && g.mine == mine
    && g.lastDelivered <= g.metaPrefix
    && IsRunEnd(fates.Keys, 0, g.metaPrefix)
    && KeepsAbove(g.meta, fates, g.lastDelivered)
    && KeepsAbove(g.committed, commits, g.lastDelivered)
    && (forall k :: 0 < k <= g.lastDelivered ==> IsSettled(mine, fates, commits, k))
  }

  lemma SettleKeeps(g: Merger, mine: set<nat>, fates: map<nat, seq<nat>>, commits: map<nat, Request>, next: nat)
    requires Represents(g, mine, fates, commits)
    requires next == g.lastDelivered + 1 <= g.metaPrefix && IsSettled(mine, fates, commits, next)
    ensures Represents(Settle(g, next), mine, fates, commits)
  {
  }

  lemma MergeStep(g: Merger, mine: set<nat>, fates: map<nat, seq<nat>>, commits: map<nat, Request>, next: nat)
    requires Represents(g, mine, fates, commits) && next == g.lastDelivered + 1
    ensures g.lastDelivered >= g.metaPrefix ==> !IsSettled(mine, fates, commits, next) && Merge(g) == (g, [])
    ensures g.lastDelivered < g.metaPrefix && !IsSettled(mine, fates, commits, next) ==> Merge(g) == (g, [])
    ensures g.lastDelivered < g.metaPrefix && IsSettled(mine, fates, commits, next) ==>
      Merge(g) == (Merge(Settle(g, next)).0, At(mine, fates, commits, next) + Merge(Settle(g, next)).1)
  {
    if g.lastDelivered < g.metaPrefix {
      assert next in fates.Keys && g.meta[next] == fates[next];
      assert [] + Merge(Settle(g, next)).1 == Merge(Settle(g, next)).1;
    }
  }

  lemma Associates(a: seq<Delivery>, b: seq<Delivery>, c: seq<Delivery>)
    ensures a + b + c == a + (b + c)
  {
  }

  lemma {:induction false} MergeKeeps(g: Merger, mine: set<nat>, fates: map<nat, seq<nat>>, commits: map<nat, Request>,
                                      g1: Merger, sent: seq<Delivery>)
    requires Represents(g, mine, fates, commits)
    requires Merge(g) == (g1, sent)
    ensures Rests(g1, mine, fates, commits)
    ensures Ordered(mine, fates, commits, g1.lastDelivered) == Ordered(mine, fates, commits, g.lastDelivered) + sent
    decreases g.metaPrefix - g.lastDelivered, 1
  {
    var next := g.lastDelivered + 1;
    var before := Ordered(mine, fates, commits, g.lastDelivered);
    MergeStep(g, mine, fates, commits, next);
    if g.lastDelivered >= g.metaPrefix || !IsSettled(mine, fates, commits, next) {
      assert before + [] == before;
    } else {
      SettleKeeps(g, mine, fates, commits, next);
      MergeKeepsAfter(g, mine, fates, commits, next, g1, sent, Settle(g, next), Merge(Settle(g, next)).1);
    }
  }

  lemma {:induction false} MergeKeepsAfter(g: Merger, mine: set<nat>, fates: map<nat, seq<nat>>, commits: map<nat, Request>,
                                           next: nat, g1: Merger, sent: seq<Delivery>, g2: Merger, rest: seq<Delivery>)
    requires Represents(g2, mine, fates, commits) && g2.lastDelivered == next == g.lastDelivered + 1
    requires g2.metaPrefix == g.metaPrefix && next <= g.metaPrefix
    requires Merge(g2) == (g1, rest) && sent == At(mine, fates, commits, next) + rest
    ensures Rests(g1, mine, fates, commits)
    ensures Ordered(mine, fates, commits, g1.lastDelivered) == Ordered(mine, fates, commits, g.lastDelivered) + sent
    decreases g.metaPrefix - g.lastDelivered, 0
  {
    MergeKeeps(g2, mine, fates, commits, g1, rest);
    Associates(Ordered(mine, fates, commits, g.lastDelivered), At(mine, fates, commits, next), rest);
  }

  /** A merger that nothing can be merged in any more. */
  ghost predicate Rests(g: Merger, mine: set<nat>, fates: map<nat, seq<nat>>, commits: map<nat, Request>) {
    Represents(g, mine, fates, commits) && !IsSettled(mine, fates, commits, g.lastDelivered + 1)
  }

  /** Later words about a settled GSN change nothing that was delivered. */
  lemma {:induction false} OrderedStable(mine: set<nat>, fates: map<nat, seq<nat>>, commits: map<nat, Request>,
                                         fates': map<nat, seq<nat>>, commits': map<nat, Request>, k: nat)
    requires forall j :: 0 < j <= k ==> IsSettled(mine, fates, commits, j)
    requires Grows(fates, fates') && Grows(commits, commits')
    ensures Ordered(mine, fates', commits', k) == Ordered(mine, fates, commits, k)
  {
    if k > 0 {
      OrderedStable(mine, fates, commits, fates', commits', k - 1);
      assert IsSettled(mine, fates, commits, k);
    }
  }

  /** The prefix of a merger that has learnt more. */
  lemma PrefixAfter(g: Merger, mine: set<nat>, fates: map<nat, seq<nat>>, commits: map<nat, Request>, g1: Merger,
                    fates': map<nat, seq<nat>>)
    requires Represents(g, mine, fates, commits)
    requires g1 == WithPrefix(g.(meta := g1.meta))
    requires KeepsAbove(g1.meta, fates', g.lastDelivered)
    requires Grows(fates, fates')
    ensures Represents(g1, mine, fates', commits)
  {
    forall k | 0 < k <= g1.metaPrefix
      ensures k in fates'
    {
      if k > g.metaPrefix {
        assert k in g1.meta.Keys;
      }
    }
    assert g1.metaPrefix + 1 !in g1.meta.Keys;
    forall k | 0 < k <= g.lastDelivered
      ensures IsSettled(mine, fates', commits, k)
    {
      assert IsSettled(mine, fates, commits, k);
    }
  }

  /** What the merger does before it merges. */
  function Learn(g: Merger, e: Event): Merger {
    match e
    case Meta(gsn, groups) =>
      if gsn == 0 || gsn in g.meta || gsn <= g.lastDelivered then g else WithPrefix(g.(meta := g.meta[gsn := groups]))
    case Skip(from, to) =>
      if from == 0 || to < from then g else WithPrefix(g.(meta := WithSkips(g.meta, g.lastDelivered, from, to)))
    case Commit(req) =>
      if req == None || req.value.gsn <= g.lastDelivered || req.value.gsn in g.committed then g
      else g.(committed := g.committed[req.value.gsn := req.value])
  }

  lemma RestingMergesNothing(g: Merger, mine: set<nat>, fates: map<nat, seq<nat>>, commits: map<nat, Request>)
    requires Rests(g, mine, fates, commits)
    ensures Merge(g) == (g, [])
  {
    if g.lastDelivered < g.metaPrefix {
      assert g.lastDelivered + 1 in fates.Keys;
    }
  }

  lemma HandleIsLearnAndMerge(g: Merger, e: Event, mine: set<nat>, fates: map<nat, seq<nat>>, commits: map<nat, Request>)
    requires Rests(g, mine, fates, commits)
    ensures Handle(g, e) == Merge(Learn(g, e))
  {
    RestingMergesNothing(g, mine, fates, commits);
  }

  lemma LearnMeta(g: Merger, mine: set<nat>, fates: map<nat, seq<nat>>, commits: map<nat, Request>, gsn: nat, groups: seq<nat>)
    requires Represents(g, mine, fates, commits) && gsn > 0
    ensures Represents(Learn(g, Meta(gsn, groups)), mine, if gsn in fates then fates else fates[gsn := groups], commits)
  {
    if gsn <= g.lastDelivered {
      assert IsSettled(mine, fates, commits, gsn);
    } else if gsn !in fates {
      PrefixAfter(g, mine, fates, commits, Learn(g, Meta(gsn, groups)), fates[gsn := groups]);
    }
  }

  lemma LearnSkip(g: Merger, mine: set<nat>, fates: map<nat, seq<nat>>, commits: map<nat, Request>, from: nat, to: nat)
    requires Represents(g, mine, fates, commits) && from > 0
    ensures Represents(Learn(g, Skip(from, to)), mine, WithSkips(fates, 0, from, to), commits)
  {
    if to < from {
      assert WithSkips(fates, 0, from, to) == fates;
    } else {
      PrefixAfter(g, mine, fates, commits, Learn(g, Skip(from, to)), WithSkips(fates, 0, from, to));
    }
  }

  lemma LearnCommit(g: Merger, mine: set<nat>, fates: map<nat, seq<nat>>, commits: map<nat, Request>, req: Request)
    requires Represents(g, mine, fates, commits) && req.gsn > 0
    ensures Represents(Learn(g, Commit(Some(req))), mine, fates, if req.gsn in commits then commits else commits[req.gsn := req])
  {
    var commits' := if req.gsn in commits then commits else commits[req.gsn := req];
    forall k | 0 < k <= g.lastDelivered
      ensures IsSettled(mine, fates, commits', k)
    {
      assert IsSettled(mine, fates, commits, k);
    }
  }

  lemma LearnKeeps(g: Merger, mine: set<nat>, events: seq<Event>, e: Event,
                   fates: map<nat, seq<nat>>, commits: map<nat, Request>)
    requires Represents(g, mine, fates, commits)
    requires fates == FatesOf(events) && commits == CommitsOf(events)
    ensures Represents(Learn(g, e), mine, FatesOf(events + [e]), CommitsOf(events + [e]))
    ensures Grows(fates, FatesOf(events + [e])) && Grows(commits, CommitsOf(events + [e]))
  {
    assert (events + [e])[..|events|] == events;
    match e
    case Meta(gsn, groups) =>
      if gsn > 0 {
        LearnMeta(g, mine, fates, commits, gsn, groups);
      }
    case Skip(from, to) =>
      if from > 0 {
        LearnSkip(g, mine, fates, commits, from, to);
      }
    case Commit(req) =>
      if req.Some? && req.value.gsn > 0 {
        LearnCommit(g, mine, fates, commits, req.value);
      }
  }

  lemma EventKeeps(g: Merger, mine: set<nat>, events: seq<Event>, e: Event, g1: Merger, sent: seq<Delivery>)
    requires Rests(g, mine, FatesOf(events), CommitsOf(events))
    requires Handle(g, e) == (g1, sent)
    ensures Rests(g1, mine, FatesOf(events + [e]), CommitsOf(events + [e]))
    ensures Ordered(mine, FatesOf(events + [e]), CommitsOf(events + [e]), g1.lastDelivered)
            == Ordered(mine, FatesOf(events), CommitsOf(events), g.lastDelivered) + sent
  {
    var fates, commits := FatesOf(events), CommitsOf(events);
    var fates', commits' := FatesOf(events + [e]), CommitsOf(events + [e]);
    HandleIsLearnAndMerge(g, e, mine, fates, commits);
    LearnKeeps(g, mine, events, e, fates, commits);
    MergeKeeps(Learn(g, e), mine, fates', commits', g1, sent);
    OrderedStable(mine, fates, commits, fates', commits', g.lastDelivered);
  }

  lemma {:induction false} NodeRests(mine: set<nat>, events: seq<Event>)
    ensures Rests(Node(mine, events).0, mine, FatesOf(events), CommitsOf(events))
    ensures Node(mine, events).1 == Ordered(mine, FatesOf(events), CommitsOf(events), Node(mine, events).0.lastDelivered)
  {
    if events != [] {
      var before, e := events[..|events| - 1], events[|events| - 1];
      NodeRests(mine, before);
      var (g, sent) := Node(mine, before);
      var (g1, more) := Handle(g, e);
      EventKeeps(g, mine, before, e, g1, more);
      assert before + [e] == events;
    }
  }

  // ----- the theorems -----

  /** Exactly the committed GSNs up to `k` that touch the node, ascending, so once each. */
  ghost predicate IsMergeUpTo(mine: set<nat>, fates: map<nat, seq<nat>>, commits: map<nat, Request>, k: nat,
                               sent: seq<Delivery>) {
    && (forall i :: 0 <= i < |sent| ==> 0 < sent[i].gsn <= k)
    && (forall i, j :: 0 <= i < j < |sent| ==> sent[i].gsn < sent[j].gsn)
    && (forall d :: d in sent <==> 0 < d.gsn <= k && IsDelivery(mine, fates, commits, d))
  }

  predicate IsDelivery(mine: set<nat>, fates: map<nat, seq<nat>>, commits: map<nat, Request>, d: Delivery) {
    && d.gsn in fates && Touches(mine, fates[d.gsn]) && d.groups == fates[d.gsn]
    && d.gsn in commits && d.req == commits[d.gsn]
  }

  lemma MergeOneMore(mine: set<nat>, fates: map<nat, seq<nat>>, commits: map<nat, Request>, k: nat, before: seq<Delivery>,
                     sent: seq<Delivery>)
    requires k > 0 && IsMergeUpTo(mine, fates, commits, k - 1, before)
    requires sent == before + At(mine, fates, commits, k)
    ensures IsMergeUpTo(mine, fates, commits, k, sent)
  {
    forall d: Delivery | 0 < d.gsn <= k && IsDelivery(mine, fates, commits, d)
      ensures d in sent
    {
      if d.gsn < k {
        assert d in before;
      } else {
        assert d in At(mine, fates, commits, k);
      }
    }
  }

  lemma {:induction false} OrderedIsMerge(mine: set<nat>, fates: map<nat, seq<nat>>, commits: map<nat, Request>, k: nat)
    ensures IsMergeUpTo(mine, fates, commits, k, Ordered(mine, fates, commits, k))
  {
    if k > 0 {
      OrderedIsMerge(mine, fates, commits, k - 1);
      MergeOneMore(mine, fates, commits, k, Ordered(mine, fates, commits, k - 1), Ordered(mine, fates, commits, k));
    }
  }

  /** The closed form. After any interleaving of METAs, skips and commits, consistent with
      other nodes or not, `lastDelivered` is the largest k below which every GSN is classified
      and every one touching this node is committed; what was delivered are exactly the
      touching GSNs up to k, in ascending order, with the groups and requests first learnt. */
  lemma ClosedForm(mine: set<nat>, events: seq<Event>)
    ensures
      var (fates, commits) := (FatesOf(events), CommitsOf(events));
      && Node(mine, events).0.lastDelivered == Extend(Settled(mine, fates, commits), 0)
      && IsMergeUpTo(mine, fates, commits, Extend(Settled(mine, fates, commits), 0), Node(mine, events).1)
  {
    NodeRests(mine, events);
    RestsAtRunEnd(Node(mine, events).0, mine, FatesOf(events), CommitsOf(events));
    OrderedIsMerge(mine, FatesOf(events), CommitsOf(events), Node(mine, events).0.lastDelivered);
  }

  lemma RestsAtRunEnd(g: Merger, mine: set<nat>, fates: map<nat, seq<nat>>, commits: map<nat, Request>)
    requires Rests(g, mine, fates, commits)
    ensures g.lastDelivered == Extend(Settled(mine, fates, commits), 0)
  {
    var settled := Settled(mine, fates, commits);
    forall j | 0 < j <= g.lastDelivered
      ensures j in settled
    {
      assert IsSettled(mine, fates, commits, j);
    }
    RunEndUnique(settled, 0, g.lastDelivered);
  }

  /** The GSNs, among those delivered, that touch another node too. */
  function Shared(sent: seq<Delivery>, other: set<nat>): seq<nat> {
    if sent == [] then []
    else
      var last := sent[|sent| - 1];
      Shared(sent[..|sent| - 1], other) + if Touches(other, last.groups) then [last.gsn] else []
  }

  /** The GSNs up to `k` that touch both nodes. */
  function SharedUpTo(a: set<nat>, b: set<nat>, fates: map<nat, seq<nat>>, k: nat): seq<nat> {
    if k == 0 then []
    else SharedUpTo(a, b, fates, k - 1) + if k in fates && Touches(a, fates[k]) && Touches(b, fates[k]) then [k] else []
  }

  lemma SharedOneMore(before: seq<Delivery>, one: seq<Delivery>, other: set<nat>)
    requires |one| <= 1
    ensures Shared(before + one, other)
            == Shared(before, other) + if one != [] && Touches(other, one[0].groups) then [one[0].gsn] else []
  {
    if one == [] {
      assert before + one == before;
    } else {
      assert (before + one)[..|before|] == before;
    }
  }

  lemma {:induction false} SharedOfOrdered(mine: set<nat>, other: set<nat>, fates: map<nat, seq<nat>>,
                                           commits: map<nat, Request>, k: nat)
    requires forall j :: 0 < j <= k ==> IsSettled(mine, fates, commits, j)
    ensures Shared(Ordered(mine, fates, commits, k), other) == SharedUpTo(mine, other, fates, k)
  {
    if k > 0 {
      SharedOfOrdered(mine, other, fates, commits, k - 1);
      assert IsSettled(mine, fates, commits, k);
      SharedOneMore(Ordered(mine, fates, commits, k - 1), At(mine, fates, commits, k), other);
    }
  }

  lemma {:induction false} SharedSymmetric(a: set<nat>, b: set<nat>, fatesA: map<nat, seq<nat>>, fatesB: map<nat, seq<nat>>,
                                           k: nat, l: nat)
    requires k <= l
    requires forall g :: 0 < g <= k ==> g in fatesA && g in fatesB && fatesA[g] == fatesB[g]
    ensures SharedUpTo(a, b, fatesA, k) <= SharedUpTo(b, a, fatesB, l)
    decreases l
  {
    if k < l {
      SharedSymmetric(a, b, fatesA, fatesB, k, l - 1);
    } else if k > 0 {
      SharedSymmetric(a, b, fatesA, fatesB, k - 1, k - 1);
      SharedSameLength(a, b, fatesA, fatesB, k - 1);
      assert SharedUpTo(a, b, fatesA, k - 1) == SharedUpTo(b, a, fatesB, k - 1);
    }
  }

  lemma {:induction false} SharedSameLength(a: set<nat>, b: set<nat>, fatesA: map<nat, seq<nat>>,
                                            fatesB: map<nat, seq<nat>>, k: nat)
    requires forall g :: 0 < g <= k ==> g in fatesA && g in fatesB && fatesA[g] == fatesB[g]
    ensures |SharedUpTo(a, b, fatesA, k)| == |SharedUpTo(b, a, fatesB, k)|
  {
    if k > 0 {
      SharedSameLength(a, b, fatesA, fatesB, k - 1);
    }
  }

  /** Two nodes, in any groups, that never learn different fates for one GSN deliver the GSNs
      that touch both of them in the same order: the node that is behind has delivered a
      prefix of what the other one has. */
  lemma SharedOrderAgrees(mineA: set<nat>, mineB: set<nat>, eventsA: seq<Event>, eventsB: seq<Event>)
    requires forall g :: g in FatesOf(eventsA) && g in FatesOf(eventsB) ==> FatesOf(eventsA)[g] == FatesOf(eventsB)[g]
    requires Node(mineA, eventsA).0.lastDelivered <= Node(mineB, eventsB).0.lastDelivered
    ensures Shared(Node(mineA, eventsA).1, mineB) <= Shared(Node(mineB, eventsB).1, mineA)
  {
    NodeRests(mineA, eventsA);
    NodeRests(mineB, eventsB);
    var k, l := Node(mineA, eventsA).0.lastDelivered, Node(mineB, eventsB).0.lastDelivered;
    forall g | 0 < g <= k
      ensures g in FatesOf(eventsA) && g in FatesOf(eventsB)
    {
      assert IsSettled(mineA, FatesOf(eventsA), CommitsOf(eventsA), g);
      assert IsSettled(mineB, FatesOf(eventsB), CommitsOf(eventsB), g);
    }
    SharedOfOrdered(mineA, mineB, FatesOf(eventsA), CommitsOf(eventsA), k);
    SharedOfOrdered(mineB, mineA, FatesOf(eventsB), CommitsOf(eventsB), l);
    SharedSymmetric(mineA, mineB, FatesOf(eventsA), FatesOf(eventsB), k, l);
  }
}
