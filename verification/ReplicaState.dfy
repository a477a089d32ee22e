/** From the decided log to the key-value state: a group's deliveries are applied batch by
    batch, and replicas that have delivered equally much have equal states. */
module ReplicaState {
  import opened Requests
  import opened StateMachine
  import opened GroupDelivery
  import opened GroupDeliverySpec
  import opened GroupReplicas
  import GlobalDelivery

  function RequestsOf(items: seq<Item>): (r: seq<Option<Request>>)
    ensures |r| == |items| && forall i :: 0 <= i < |items| ==> r[i] == Some(items[i].req)
  {
    seq(|items|, i requires 0 <= i < |items| => Some(items[i].req))
  }

  /** The requests whose proxy this replica notifies, having led their sequence numbers. */
  function Led(items: seq<Item>): seq<Request> {
    if items == [] then []
    else Led(items[..|items| - 1]) + if items[|items| - 1].leader then [items[|items| - 1].req] else []
  }

  /** Hands the numbered requests among a group's deliveries to the node's global deliverer. */
  function CommitAll(g: GlobalDelivery.Merger, items: seq<Item>): (GlobalDelivery.Merger, seq<GlobalDelivery.Delivery>) {
    if items == [] then (g, [])
    else
      var (g1, sent) := CommitAll(g, items[..|items| - 1]);
      var req := items[|items| - 1].req;
      if req.gsn == 0 then (g1, sent)
      else
        var (g2, more) := GlobalDelivery.OnCommit(g1, Some(req));
        (g2, sent + more)
  }

  /** Goes through what a group delivered: collects the requests and those led, and hands the
      numbered ones on. */
  method HandOn(global: GlobalDelivery.GlobalDeliverer, items: seq<Item>) returns (all: seq<Option<Request>>, mine: seq<Request>)
    modifies global
    ensures all == RequestsOf(items) && mine == Led(items)
    ensures global.State() == CommitAll(old(global.State()), items).0
    ensures global.out == old(global.out) + CommitAll(old(global.State()), items).1
  {
    ghost var start := global.State();
    all, mine := [], [];
    assert global.out + [] == global.out;
    for i := 0 to |items|
      invariant all == RequestsOf(items[..i]) && mine == Led(items[..i])
      invariant (global.State(), global.out) == Sent(CommitAll(start, items[..i]), old(global.out))
    {
      OneMoreItem(start, items, i, old(global.out));
      var it := items[i];
      all := all + [Some(it.req)];
      if it.leader {
        mine := mine + [it.req];
      }
      if it.req.gsn > 0 {
        global.RegisterCommit(Some(it.req));
      }
    }
    assert items[..|items|] == items;
  }

  function Sent(r: (GlobalDelivery.Merger, seq<GlobalDelivery.Delivery>), out: seq<GlobalDelivery.Delivery>)
    : (GlobalDelivery.Merger, seq<GlobalDelivery.Delivery>)
  {
    (r.0, out + r.1)
  }

  /** Applies what a group delivered, in order, as one batch under the first item's number. */
  method DeliverGroup(group: GroupState, global: GlobalDelivery.GlobalDeliverer, gid: nat, items: seq<Item>)
    returns (answers: map<int, Response>, mine: seq<Request>)
    requires items != []
    modifies group, global
    ensures group.data == ApplyAll(gid, old(group.data), RequestsOf(items))
    ensures answers == AnswersOf(gid, old(group.data), items[0].sn, RequestsOf(items))
    ensures mine == Led(items)
    ensures global.State() == CommitAll(old(global.State()), items).0
    ensures global.out == old(global.out) + CommitAll(old(global.State()), items).1
  {
    var all: seq<Option<Request>>;
    all, mine := HandOn(global, items);
    answers := group.ApplyBatch(gid, items[0].sn, all);
  }

  lemma OneMoreItem(g: GlobalDelivery.Merger, items: seq<Item>, i: nat, out: seq<GlobalDelivery.Delivery>)
    requires i < |items|
    ensures RequestsOf(items[..i + 1]) == RequestsOf(items[..i]) + [Some(items[i].req)]
    ensures Led(items[..i + 1]) == if items[i].leader then Led(items[..i]) + [items[i].req] else Led(items[..i])
    ensures var (g1, sent) := Sent(CommitAll(g, items[..i]), out);
      Sent(CommitAll(g, items[..i + 1]), out) ==
      if items[i].req.gsn == 0 then (g1, sent)
      else (GlobalDelivery.OnCommit(g1, Some(items[i].req)).0, sent + GlobalDelivery.OnCommit(g1, Some(items[i].req)).1)
  {
    assert items[..i + 1][..i] == items[..i];
    assert Led(items[..i]) + [] == Led(items[..i]);
    var (g1, sent) := CommitAll(g, items[..i]);
    var more := GlobalDelivery.OnCommit(g1, Some(items[i].req)).1;
    assert out + (sent + more) == out + sent + more;
  }

  /** The requests led are those of the items led, in order. */
  lemma {:induction false} LedParts(a: seq<Item>, it: Item, b: seq<Item>)
    ensures Led(a + [it] + b) == Led(a) + (if it.leader then [it.req] else []) + Led(b)
  {
    var all := a + [it] + b;
    if b == [] {
      assert all[..|all| - 1] == a;
      assert all == a + [it];
    } else {
      assert all[..|all| - 1] == a + [it] + b[..|b| - 1];
      LedParts(a, it, b[..|b| - 1]);
    }
  }

  /** The deliveries of a group, in the portions in which they were applied. */
  function Joined(portions: seq<seq<Item>>): seq<Item> {
    if portions == [] then [] else Joined(portions[..|portions| - 1]) + portions[|portions| - 1]
  }

  function Batches(portions: seq<seq<Item>>): seq<seq<Option<Request>>> {
    if portions == [] then [] else Batches(portions[..|portions| - 1]) + [RequestsOf(portions[|portions| - 1])]
  }

  /** The key-value state of a new replica that has applied some portions. */
  function StateOf(gid: nat, portions: seq<seq<Item>>): Data {
    ApplyBatches(gid, map[], Batches(portions))
  }

  lemma {:induction false} BatchesFlatten(portions: seq<seq<Item>>)
    ensures Flatten(Batches(portions)) == RequestsOf(Joined(portions))
  {
    if portions != [] {
      BatchesFlatten(portions[..|portions| - 1]);
      var batches := Batches(portions);
      assert batches[..|batches| - 1] == Batches(portions[..|portions| - 1]);
      assert RequestsOf(Joined(portions))
          == RequestsOf(Joined(portions[..|portions| - 1])) + RequestsOf(portions[|portions| - 1]);
    }
  }

  /** The state is a function of what was delivered, not of the portions nor of who led. */
  lemma StateOfDelivered(gid: nat, portions: seq<seq<Item>>)
    ensures StateOf(gid, portions) == ApplyAll(gid, map[], RequestsOf(Strip(Joined(portions))))
  {
    BatchingIrrelevant(gid, map[], Batches(portions));
    BatchesFlatten(portions);
    assert RequestsOf(Strip(Joined(portions))) == RequestsOf(Joined(portions));
  }

  lemma StripPrefix(items: seq<Item>, all: seq<Item>)
    requires items <= all
    ensures Strip(items) <= Strip(all)
  {
    assert forall i :: 0 <= i < |items| ==> Strip(all)[i] == Strip(items)[i];
  }

  /** Replica state equality. Two replicas of a group that follow one decided log, with METAs,
      skips and log batches in any order, that have applied equally many deliveries in any
      portions have the same key-value state. */
  lemma ReplicasHaveEqualState(fates: Fates, gid: nat, events1: seq<Event>, events2: seq<Event>,
                               portions1: seq<seq<Item>>, portions2: seq<seq<Item>>)
    requires Consistent(fates, gid, events1) && Consistent(fates, gid, events2)
    requires Strip(Decided(events1)) <= Strip(Decided(events2))
    requires Joined(portions1) <= Replica(gid, events1).1 && Joined(portions2) <= Replica(gid, events2).1
    requires |Joined(portions1)| == |Joined(portions2)|
    ensures StateOf(gid, portions1) == StateOf(gid, portions2)
  {
    OutputsComparable(fates, gid, events1, events2);
    StripPrefix(Joined(portions1), Replica(gid, events1).1);
    StripPrefix(Joined(portions2), Replica(gid, events2).1);
    assert Strip(Joined(portions1)) == Strip(Joined(portions2));
    StateOfDelivered(gid, portions1);
    StateOfDelivered(gid, portions2);
  }
}
