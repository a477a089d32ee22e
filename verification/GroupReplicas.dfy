/** Replicas of one group agree: whatever the batches, the order of METAs and skips and how
    far each has come, their outputs are prefixes of one sequence. */
module GroupReplicas {
  import opened Requests
  import opened GroupDelivery
  import opened GroupDeliverySpec
  import opened GroupDeliveryProofs

  /** An item without the flag that says whether this replica led its sequence number. */
  function Anonymous(it: Item): Item {
    it.(leader := false)
  }

  function Strip(items: seq<Item>): (r: seq<Item>)
    ensures |r| == |items| && forall i :: 0 <= i < |items| ==> r[i] == Anonymous(items[i])
  {
    seq(|items|, i requires 0 <= i < |items| => Anonymous(items[i]))
  }

  /** The requests of a history's batches, in the order they were pushed, copies included. */
  function ItemsOf(sn: int, leader: bool, requests: seq<Option<Request>>): seq<Item> {
    if requests == [] then []
    else
      var last := requests[|requests| - 1];
      ItemsOf(sn, leader, requests[..|requests| - 1]) + if last == None then [] else [Item(sn, leader, last.value)]
  }

  function Decided(events: seq<Event>): seq<Item> {
    if events == [] then []
    else
      Decided(events[..|events| - 1]) +
      match events[|events| - 1]
      case Pushed(sn, leader, requests) => ItemsOf(sn, leader, requests)
      case _ => []
  }

  function Dedup(log: seq<Item>, items: seq<Item>): seq<Item> {
    if items == [] then log else Add(Dedup(log, items[..|items| - 1]), items[|items| - 1])
  }

  lemma {:induction false} DedupConcat(log: seq<Item>, a: seq<Item>, b: seq<Item>)
    ensures Dedup(log, a + b) == Dedup(Dedup(log, a), b)
    ensures Dedup(log, a) <= Dedup(log, a + b)
  {
    if b == [] {
      assert a + b == a;
    } else {
      assert (a + b)[..|a + b| - 1] == a + b[..|b| - 1];
      DedupConcat(log, a, b[..|b| - 1]);
    }
  }

  lemma {:induction false} AddAllIsDedup(log: seq<Item>, sn: int, leader: bool, requests: seq<Option<Request>>)
    ensures AddAll(log, sn, leader, requests) == Dedup(log, ItemsOf(sn, leader, requests))
  {
    if requests != [] {
      var before, last := requests[..|requests| - 1], requests[|requests| - 1];
      AddAllIsDedup(log, sn, leader, before);
      if last.Some? {
        var items := ItemsOf(sn, leader, before) + [Item(sn, leader, last.value)];
        assert items[..|items| - 1] == ItemsOf(sn, leader, before);
      } else {
        assert ItemsOf(sn, leader, before) + [] == ItemsOf(sn, leader, before);
      }
    }
  }

  /** How requests are grouped into batches does not matter to the log. */
  lemma {:induction false} LogIsDedup(events: seq<Event>)
    ensures LogOf(events) == Dedup([], Decided(events))
  {
    if events != [] {
      var before, e := events[..|events| - 1], events[|events| - 1];
      LogIsDedup(before);
      if e.Pushed? {
        AddAllIsDedup(LogOf(before), e.sn, e.leader, e.requests);
        DedupConcat([], Decided(before), ItemsOf(e.sn, e.leader, e.requests));
      } else {
        assert Decided(before) + [] == Decided(before);
      }
    }
  }

  // ----- the leader flag does not matter -----

  lemma {:induction false} StripHolds(log: seq<Item>, gsn: nat)
    ensures Holds(Strip(log), gsn) == Holds(log, gsn)
    ensures Holds(log, gsn) ==> Find(Strip(log), gsn) == Anonymous(Find(log, gsn))
  {
    if log != [] {
      assert Strip(log)[1..] == Strip(log[1..]);
      StripHolds(log[1..], gsn);
    }
  }

  lemma {:induction false} StripDedup(items: seq<Item>)
    ensures Strip(Dedup([], items)) == Dedup([], Strip(items))
  {
    if items != [] {
      var before, it := items[..|items| - 1], items[|items| - 1];
      StripDedup(before);
      assert Strip(items)[..|items| - 1] == Strip(before);
      StripHolds(Dedup([], before), it.req.gsn);
      assert Strip(Dedup([], before) + [it]) == Strip(Dedup([], before)) + [Anonymous(it)];
    }
  }

  function StripProgress(p: Progress): Progress {
    p.(sent := Strip(p.sent))
  }

  lemma StripAfter(it: Item, p: Progress)
    ensures StripProgress(After([it], p)) == After([Anonymous(it)], StripProgress(p))
  {
    assert Strip([it] + p.sent) == [Anonymous(it)] + Strip(p.sent);
  }

  lemma {:induction false} StripDeliver(fates: Fates, gid: nat, log: seq<Item>, prefix: nat, head: nat, cursor: nat)
    requires head <= |log|
    ensures Deliver(fates, gid, Strip(log), prefix, head, cursor)
            == StripProgress(Deliver(fates, gid, log, prefix, head, cursor))
    decreases |log| - head, if prefix > cursor then prefix - cursor else 0
  {
    if head < |log| {
      if !IsCross(log[head].req) {
        StripDeliver(fates, gid, log, prefix, head + 1, cursor);
        StripAfter(log[head], Deliver(fates, gid, log, prefix, head + 1, cursor));
      } else if log[head].req.gsn <= cursor {
        StripDeliver(fates, gid, log, prefix, head + 1, cursor);
      } else if cursor < prefix {
        StripHolds(log, cursor + 1);
        if !Concerns(fates, gid, cursor + 1) {
          StripDeliver(fates, gid, log, prefix, head, cursor + 1);
        } else if Holds(log, cursor + 1) {
          StripDeliver(fates, gid, log, prefix, head, cursor + 1);
          StripAfter(Find(log, cursor + 1), Deliver(fates, gid, log, prefix, head, cursor + 1));
        }
      }
    }
  }

  // ----- the theorems -----

  /** What a replica delivered, without the leader flags. */
  function Output(gid: nat, events: seq<Event>): seq<Item> {
    Strip(Replica(gid, events).1)
  }

  /** A replica's output is the reference delivery of what the group decided, as far as
      this replica has learnt of it, and of the METAs it knows without a gap. */
  lemma OutputIsReference(fates: Fates, gid: nat, events: seq<Event>)
    requires Consistent(fates, gid, events)
    ensures Output(gid, events) == Delivered(fates, gid, Dedup([], Strip(Decided(events))), PrefixOf(events)).sent
  {
    ReplicaRefines(fates, gid, events);
    LogIsDedup(events);
    StripDedup(Decided(events));
    StripDeliver(fates, gid, LogOf(events), PrefixOf(events), 0, 0);
  }

  /** Determinism: the same decided requests and the same known META prefix give the same
      output, for every interleaving and batching at either replica. */
  lemma SameInputsSameOutput(fates: Fates, gid: nat, events1: seq<Event>, events2: seq<Event>)
    requires Consistent(fates, gid, events1) && Consistent(fates, gid, events2)
    requires Strip(Decided(events1)) == Strip(Decided(events2))
    requires PrefixOf(events1) == PrefixOf(events2)
    ensures Output(gid, events1) == Output(gid, events2)
  {
    OutputIsReference(fates, gid, events1);
    OutputIsReference(fates, gid, events2);
  }

  /** Agreement: replicas that follow the same decided log, at any distance from each other and
      with any METAs, have outputs of which one is a prefix of the other. */
  lemma OutputsComparable(fates: Fates, gid: nat, events1: seq<Event>, events2: seq<Event>)
    requires Consistent(fates, gid, events1) && Consistent(fates, gid, events2)
    requires Strip(Decided(events1)) <= Strip(Decided(events2))
    ensures Output(gid, events1) <= Output(gid, events2) || Output(gid, events2) <= Output(gid, events1)
  {
    OutputIsReference(fates, gid, events1);
    OutputIsReference(fates, gid, events2);
    var items1, items2 := Strip(Decided(events1)), Strip(Decided(events2));
    var most := if PrefixOf(events1) > PrefixOf(events2) then PrefixOf(events1) else PrefixOf(events2);
    DedupPrefix(items1, items2);
    DeliveredPrefix(fates, gid, Dedup([], items1), Dedup([], items2), PrefixOf(events1), most);
    DeliveredPrefix(fates, gid, Dedup([], items2), Dedup([], items2), PrefixOf(events2), most);
    PrefixesComparable(Output(gid, events1), Output(gid, events2), Delivered(fates, gid, Dedup([], items2), most).sent);
  }

  lemma DedupPrefix(items1: seq<Item>, items2: seq<Item>)
    requires items1 <= items2
    ensures Dedup([], items1) <= Dedup([], items2)
  {
    assert items2 == items1 + items2[|items1|..];
    DedupConcat([], items1, items2[|items1|..]);
  }

  lemma DeliveredPrefix(fates: Fates, gid: nat, log1: seq<Item>, log2: seq<Item>, prefix1: nat, prefix2: nat)
    requires log1 <= log2 && prefix1 <= prefix2
    ensures Delivered(fates, gid, log1, prefix1).sent <= Delivered(fates, gid, log2, prefix2).sent
  {
    assert log2 == log1 + log2[|log1|..];
    DeliverGrows(fates, gid, log1, log2[|log1|..], prefix1, prefix2, 0, 0);
  }
}
