/** How a group's deliveries reach the node's global deliverer: as commits of its history. */
module CommitHistory {
  import opened Requests
  import opened GlobalDelivery
  import opened GlobalDeliveryProofs
  import opened ReplicaState
  import GroupDelivery
  import Metas

  /** A group's deliveries as commits, in the same order. */
  function CommitsFrom(items: seq<GroupDelivery.Item>): (events: seq<Event>)
    ensures |events| == |items| && forall i :: 0 <= i < |items| ==> events[i] == Commit(Some(items[i].req))
  {
    seq(|items|, i requires 0 <= i < |items| => Commit(Some(items[i].req)))
  }

  lemma NodeStep(mine: set<nat>, all: seq<Event>, req: Request, s: (Merger, seq<Delivery>), more: (Merger, seq<Delivery>))
    requires all != [] && all[|all| - 1] == Commit(Some(req)) && s == Node(mine, all[..|all| - 1])
    requires more == OnCommit(s.0, Some(req))
    ensures Node(mine, all) == (more.0, s.1 + more.1)
  {
  }

  lemma CommitStep(g: Merger, items: seq<GroupDelivery.Item>, done: (Merger, seq<Delivery>), more: (Merger, seq<Delivery>))
    requires items != [] && done == CommitAll(g, items[..|items| - 1])
    requires more == OnCommit(done.0, Some(items[|items| - 1].req))
    ensures CommitAll(g, items) == (more.0, done.1 + more.1)
  {
    assert done.1 + [] == done.1;
  }

  lemma BothStep(mine: set<nat>, all: seq<Event>, g: Merger, items: seq<GroupDelivery.Item>, done: (Merger, seq<Delivery>),
                 s: (Merger, seq<Delivery>)) returns (more: (Merger, seq<Delivery>))
    requires items != [] && all != [] && all[|all| - 1] == Commit(Some(items[|items| - 1].req))
    requires done == CommitAll(g, items[..|items| - 1]) && s == Node(mine, all[..|all| - 1]) && s.0 == done.0
    ensures CommitAll(g, items) == (more.0, done.1 + more.1) && Node(mine, all) == (more.0, s.1 + more.1)
  {
    more := OnCommit(done.0, Some(items[|items| - 1].req));
    CommitStep(g, items, done, more);
    NodeStep(mine, all, items[|items| - 1].req, s, more);
  }

  lemma OneMoreCommit(mine: set<nat>, all: seq<Event>, g: Merger, items: seq<GroupDelivery.Item>, done: (Merger, seq<Delivery>),
                      out: seq<Delivery>, r: (Merger, seq<Delivery>))
    requires items != [] && all != [] && all[|all| - 1] == Commit(Some(items[|items| - 1].req))
    requires done == CommitAll(g, items[..|items| - 1]) && r == CommitAll(g, items)
    requires Node(mine, all[..|all| - 1]) == (done.0, out + done.1)
    ensures Node(mine, all) == (r.0, out + r.1)
  {
    var more := BothStep(mine, all, g, items, done, (done.0, out + done.1));
    Associates(out, done.1, more.1);
  }

  /** Handing on a group's deliveries is the same as continuing the history with their commits. */
  lemma {:induction false} CommitAllIsHistory(mine: set<nat>, events: seq<Event>, items: seq<GroupDelivery.Item>, g: Merger,
                                              out: seq<Delivery>, r: (Merger, seq<Delivery>), all: seq<Event>)
    requires Node(mine, events) == (g, out) && r == CommitAll(g, items) && all == events + CommitsFrom(items)
    ensures Node(mine, all) == (r.0, out + r.1)
  {
    if items == [] {
      assert all == events && out + [] == out;
    } else {
      var before := items[..|items| - 1];
      var done := CommitAll(g, before);
      assert all[..|all| - 1] == events + CommitsFrom(before);
      CommitAllIsHistory(mine, events, before, g, out, done, all[..|all| - 1]);
      OneMoreCommit(mine, all, g, items, done, out, r);
    }
  }

  /** So after any history and any deliveries handed on by its groups, the node has delivered what
      the closed form says of the whole. */
  lemma HandedOn(mine: set<nat>, events: seq<Event>, items: seq<GroupDelivery.Item>, g: Merger, out: seq<Delivery>,
                 r: (Merger, seq<Delivery>), all: seq<Event>)
    requires Node(mine, events) == (g, out) && r == CommitAll(g, items) && all == events + CommitsFrom(items)
    ensures r.0.lastDelivered == Metas.Extend(Settled(mine, FatesOf(all), CommitsOf(all)), 0)
    ensures IsMergeUpTo(mine, FatesOf(all), CommitsOf(all), r.0.lastDelivered, out + r.1)
  {
    CommitAllIsHistory(mine, events, items, g, out, r, all);
    ClosedForm(mine, all);
  }
}
