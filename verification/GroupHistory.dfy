/** A replica's de-duplicated log and META prefix, read off its history event by event. */
module GroupHistory {
  import opened Requests
  import opened Metas
  import opened GroupDelivery
  import opened GroupDeliverySpec
  import opened GroupDeliveryTheorems
  import opened GroupReplicas

  // ----- the log -----

  /** Some request of the batch an event pushes is the item's. */
  ghost predicate Pushes(e: Event, it: Item) {
    e.Pushed? && Some(it.req) in e.requests && it.sn == e.sn && it.leader == e.leader
  }

  lemma {:induction false} ItemsExactly(sn: int, leader: bool, requests: seq<Option<Request>>, it: Item)
    ensures it in ItemsOf(sn, leader, requests) <==> Some(it.req) in requests && it.sn == sn && it.leader == leader
  {
    if requests != [] {
      var before, last := requests[..|requests| - 1], requests[|requests| - 1];
      ItemsExactly(sn, leader, before, it);
      assert requests == before + [last];
      assert it == Item(it.sn, it.leader, it.req);
    }
  }

  /** What a history decided are the requests of the batches it pushed, with their numbers. */
  lemma {:induction false} DecidedExactly(events: seq<Event>, it: Item)
    ensures it in Decided(events) <==> exists i :: 0 <= i < |events| && Pushes(events[i], it)
  {
    if events != [] {
      var before, last := events[..|events| - 1], |events| - 1;
      DecidedExactly(before, it);
      if events[last].Pushed? {
        ItemsExactly(events[last].sn, events[last].leader, events[last].requests, it);
      }
      assert forall i :: 0 <= i < last ==> events[i] == before[i];
    }
  }

  lemma {:induction false} FindConcat(a: seq<Item>, b: seq<Item>, gsn: nat)
    requires Holds(a, gsn)
    ensures Holds(a + b, gsn) && Find(a + b, gsn) == Find(a, gsn)
  {
    assert (a + b)[0] == a[0] && (a + b)[1..] == a[1..] + b;
    if !IsCopyOf(a[0], gsn) {
      FindConcat(a[1..], b, gsn);
    }
  }

  lemma {:induction false} FindLast(a: seq<Item>, it: Item, gsn: nat)
    requires !Holds(a, gsn)
    ensures Holds(a + [it], gsn) <==> IsCopyOf(it, gsn)
    ensures IsCopyOf(it, gsn) ==> Find(a + [it], gsn) == it
  {
    if a == [] {
      assert a + [it] == [it] && [it][1..] == [];
    } else {
      assert (a + [it])[0] == a[0] && (a + [it])[1..] == a[1..] + [it];
      FindLast(a[1..], it, gsn);
    }
  }

  /** De-duplication keeps all local requests, and of each cross-group operation the first copy. */
  lemma {:induction false} DedupKeeps(items: seq<Item>, gsn: nat)
    ensures Locals(Dedup([], items)) == Locals(items)
    ensures Holds(Dedup([], items), gsn) <==> Holds(items, gsn)
    ensures Holds(items, gsn) ==> Find(Dedup([], items), gsn) == Find(items, gsn)
  {
    if items != [] {
      var before, it := items[..|items| - 1], items[|items| - 1];
      assert items == before + [it];
      DedupKeeps(before, gsn);
      KeepsOneMore(Dedup([], before), before, it, gsn, Dedup([], items));
      DedupKeeps(before, it.req.gsn);
      LocalsOneMore(Dedup([], before), before, it, Dedup([], items));
    }
  }

  lemma KeepsOneMore(log: seq<Item>, before: seq<Item>, it: Item, gsn: nat, log': seq<Item>)
    requires (Holds(log, gsn) <==> Holds(before, gsn)) && log' == Add(log, it)
    requires Holds(before, gsn) ==> Find(log, gsn) == Find(before, gsn)
    ensures Holds(log', gsn) <==> Holds(before + [it], gsn)
    ensures Holds(before + [it], gsn) ==> Find(log', gsn) == Find(before + [it], gsn)
  {
    if Holds(before, gsn) {
      FindConcat(before, [it], gsn);
      FindConcat(log, [it], gsn);
    } else {
      FindLast(before, it, gsn);
      FindLast(log, it, gsn);
    }
  }

  lemma LocalsOneMore(log: seq<Item>, before: seq<Item>, it: Item, log': seq<Item>)
    requires Locals(log) == Locals(before) && log' == Add(log, it)
    ensures Locals(log') == Locals(before + [it])
  {
    LocalsConcat(before, [it]);
    LocalsConcat(log, [it]);
    assert Locals([it]) == if IsCross(it.req) then [] else [it] by {
      assert [it][1..] == [];
    }
  }

  /** So the log that a replica delivers has the local requests decided, in order, and of every
      cross-group operation decided the first copy. */
  lemma LogExactly(events: seq<Event>, gsn: nat)
    ensures Locals(LogOf(events)) == Locals(Decided(events))
    ensures Holds(LogOf(events), gsn) <==> Holds(Decided(events), gsn)
    ensures Holds(Decided(events), gsn) ==> Find(LogOf(events), gsn) == Find(Decided(events), gsn)
  {
    LogIsDedup(events);
    DedupKeeps(Decided(events), gsn);
  }

  // ----- the META prefix -----

  ghost predicate IsTold(events: seq<Event>, g: nat) {
    exists i :: 0 <= i < |events| && Tells(events[i], g)
  }

  /** The known prefix reaches a GSN exactly when every GSN up to it was told of. */
  lemma PrefixExactly(events: seq<Event>, k: nat)
    ensures k <= PrefixOf(events) <==> forall g: nat :: 0 < g <= k ==> IsTold(events, g)
  {
    if k <= PrefixOf(events) {
      forall g: nat | 0 < g <= k
        ensures IsTold(events, g)
      {
        KnownExactly(events, g);
      }
    } else {
      KnownExactly(events, PrefixOf(events) + 1);
      assert !IsTold(events, PrefixOf(events) + 1);
    }
  }

  // ----- the order of cross-group operations -----

  /** Of two deliveries with a GSN and at least two groups the earlier one has the smaller GSN. */
  lemma GsnOrder(fates: Fates, gid: nat, events: seq<Event>, i: nat, j: nat)
    requires Consistent(fates, gid, events) && i < j < |Replica(gid, events).1|
    requires var sent := Replica(gid, events).1;
      && sent[i].req.gsn > 0 && |sent[i].req.touched| >= 2
      && sent[j].req.gsn > 0 && |sent[j].req.touched| >= 2
    ensures Replica(gid, events).1[i].req.gsn < Replica(gid, events).1[j].req.gsn
  {
    InOrder(fates, gid, events);
    var sent := Replica(gid, events).1;
    assert IsCross(sent[i].req) && IsCross(sent[j].req);
  }
}
