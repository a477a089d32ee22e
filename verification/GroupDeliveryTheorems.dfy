/** What the reference delivery guarantees: exactly once, in order, complete exactly when
    the METAs and operations it needs are there, and the same at every replica. */
module GroupDeliveryTheorems {
  import opened Requests
  import opened GroupDelivery
  import opened GroupDeliverySpec
  import opened GroupDeliveryProofs

  // ----- every item at most once -----

  /** The operations of a part of the log that are already out at this cursor. */
  function OutAhead(items: seq<Item>, cursor: nat): seq<Item> {
    if items == [] then []
    else if IsCross(items[0].req) && items[0].req.gsn <= cursor then [items[0]] + OutAhead(items[1..], cursor)
    else OutAhead(items[1..], cursor)
  }

  function Locals(items: seq<Item>): seq<Item> {
    if items == [] then []
    else if IsCross(items[0].req) then Locals(items[1..])
    else [items[0]] + Locals(items[1..])
  }

  /** No cross-group operation before the head is still due. */
  ghost predicate Passed(log: seq<Item>, head: nat, cursor: nat) {
    head <= |log| && forall i :: 0 <= i < head && IsCross(log[i].req) ==> log[i].req.gsn <= cursor
  }

  lemma {:induction false} OutAheadSame(items: seq<Item>, cursor: nat)
    requires !Holds(items, cursor + 1)
    ensures OutAhead(items, cursor + 1) == OutAhead(items, cursor)
  {
    if items != [] {
      OutAheadSame(items[1..], cursor);
    }
  }

  lemma {:induction false} OutAheadGrows(items: seq<Item>, cursor: nat)
    requires Distinct(items) && Holds(items, cursor + 1)
    ensures multiset(OutAhead(items, cursor + 1)) == multiset(OutAhead(items, cursor)) + multiset{Find(items, cursor + 1)}
  {
    if IsCopyOf(items[0], cursor + 1) {
      OutAheadSame(items[1..], cursor);
    } else {
      OutAheadGrows(items[1..], cursor);
    }
  }

  /** An operation due next is found at or after the head. */
  lemma {:induction false} FindAtOrAfter(log: seq<Item>, head: nat, cursor: nat)
    requires Passed(log, head, cursor) && Holds(log, cursor + 1)
    ensures Holds(log[head..], cursor + 1) && Find(log[head..], cursor + 1) == Find(log, cursor + 1)
  {
    if head > 0 {
      FindAtOrAfter(log[1..], head - 1, cursor);
      assert log[1..][head - 1..] == log[head..];
    } else {
      assert log[head..] == log;
    }
  }

  /** What has been delivered when the head and the cursor are here. */
  function Account(log: seq<Item>, head: nat, cursor: nat): multiset<Item>
    requires head <= |log|
  {
    multiset(log[..head]) + multiset(OutAhead(log[head..], cursor))
  }

  lemma AccountHead(log: seq<Item>, head: nat, cursor: nat)
    requires head < |log| && (IsCross(log[head].req) ==> log[head].req.gsn <= cursor)
    ensures Account(log, head + 1, cursor)
            == Account(log, head, cursor) + if IsCross(log[head].req) then multiset{} else multiset{log[head]}
  {
    assert log[..head + 1] == log[..head] + [log[head]];
    assert log[head..][1..] == log[head + 1..];
  }

  lemma AccountCursor(fates: Fates, gid: nat, log: seq<Item>, head: nat, cursor: nat)
    requires LogOk(fates, gid, log) && Passed(log, head, cursor)
    requires Concerns(fates, gid, cursor + 1) ==> Holds(log, cursor + 1)
    ensures Account(log, head, cursor + 1)
            == Account(log, head, cursor)
               + if Concerns(fates, gid, cursor + 1) then multiset{Find(log, cursor + 1)} else multiset{}
  {
    if Concerns(fates, gid, cursor + 1) {
      FindAtOrAfter(log, head, cursor);
      DistinctFrom(log, head);
      OutAheadGrows(log[head..], cursor);
    } else {
      assert log == log[..head] + log[head..];
      HoldsConcat(log[..head], log[head..], cursor + 1);
      OutAheadSame(log[head..], cursor);
    }
  }

  /** The account of a stretch of delivery, given the account of the rest of it. */
  ghost predicate Accounted(log: seq<Item>, head: nat, cursor: nat, p: Progress) {
    && head <= |log| && p.head <= |log|
    && Passed(log, p.head, p.cursor)
    && Account(log, head, cursor) + multiset(p.sent) == Account(log, p.head, p.cursor)
  }

  lemma AccountedFromHead(log: seq<Item>, head: nat, cursor: nat, rest: Progress)
    requires head < |log| && (IsCross(log[head].req) ==> log[head].req.gsn <= cursor)
    requires Accounted(log, head + 1, cursor, rest)
    ensures Accounted(log, head, cursor, if IsCross(log[head].req) then rest else After([log[head]], rest))
  {
    AccountHead(log, head, cursor);
    assert multiset([log[head]] + rest.sent) == multiset{log[head]} + multiset(rest.sent);
  }

  lemma AccountedFromCursor(fates: Fates, gid: nat, log: seq<Item>, head: nat, cursor: nat, rest: Progress)
    requires LogOk(fates, gid, log) && Passed(log, head, cursor)
    requires Concerns(fates, gid, cursor + 1) ==> Holds(log, cursor + 1)
    requires Accounted(log, head, cursor + 1, rest)
    ensures Accounted(log, head, cursor,
              if Concerns(fates, gid, cursor + 1) then After([Find(log, cursor + 1)], rest) else rest)
  {
    AccountCursor(fates, gid, log, head, cursor);
    if Concerns(fates, gid, cursor + 1) {
      var it := Find(log, cursor + 1);
      assert multiset([it] + rest.sent) == multiset{it} + multiset(rest.sent);
    }
  }

  /** Bookkeeping of one stretch of delivery: what is before the head or out ahead of it
      has been delivered exactly once, and nothing else has. */
  lemma {:induction false} DeliverAccounts(fates: Fates, gid: nat, log: seq<Item>, prefix: nat, head: nat, cursor: nat)
    requires LogOk(fates, gid, log) && Passed(log, head, cursor)
    ensures Accounted(log, head, cursor, Deliver(fates, gid, log, prefix, head, cursor))
    decreases |log| - head, if prefix > cursor then prefix - cursor else 0
  {
    if head < |log| {
      if !IsCross(log[head].req) || log[head].req.gsn <= cursor {
        DeliverAccounts(fates, gid, log, prefix, head + 1, cursor);
        AccountedFromHead(log, head, cursor, Deliver(fates, gid, log, prefix, head + 1, cursor));
      } else if cursor < prefix && (Concerns(fates, gid, cursor + 1) ==> Holds(log, cursor + 1)) {
        DeliverAccounts(fates, gid, log, prefix, head, cursor + 1);
        AccountedFromCursor(fates, gid, log, head, cursor, Deliver(fates, gid, log, prefix, head, cursor + 1));
      }
    }
  }

  // ----- in order -----

  /** Cross-group operations in strictly increasing GSN order, all above `low` and up to `high`. */
  ghost predicate Ascending(items: seq<Item>, low: nat, high: nat) {
    && (forall i :: 0 <= i < |items| && IsCross(items[i].req) ==> low < items[i].req.gsn <= high)
    && (forall i, j :: 0 <= i < j < |items| && IsCross(items[i].req) && IsCross(items[j].req) ==>
          items[i].req.gsn < items[j].req.gsn)
  }

  lemma {:induction false} LocalsConcat(a: seq<Item>, b: seq<Item>)
    ensures Locals(a + b) == Locals(a) + Locals(b)
  {
    if a == [] {
      assert a + b == b;
    } else {
      assert (a + b)[0] == a[0] && (a + b)[1..] == a[1..] + b;
      LocalsConcat(a[1..], b);
    }
  }

  lemma {:induction false} DeliverAscends(fates: Fates, gid: nat, log: seq<Item>, prefix: nat, head: nat, cursor: nat)
    requires head <= |log|
    ensures var p := Deliver(fates, gid, log, prefix, head, cursor);
      && head <= p.head <= |log| && cursor <= p.cursor
      && (cursor <= prefix ==> p.cursor <= prefix)
      && Ascending(p.sent, cursor, p.cursor)
    decreases |log| - head, if prefix > cursor then prefix - cursor else 0
  {
    if head < |log| {
      if !IsCross(log[head].req) || log[head].req.gsn <= cursor {
        DeliverAscends(fates, gid, log, prefix, head + 1, cursor);
      } else if cursor < prefix && (!Concerns(fates, gid, cursor + 1) || Holds(log, cursor + 1)) {
        DeliverAscends(fates, gid, log, prefix, head, cursor + 1);
      }
    }
  }

  lemma {:induction false} DeliverKeepsLocals(fates: Fates, gid: nat, log: seq<Item>, prefix: nat, head: nat, cursor: nat)
    requires head <= |log|
    ensures var p := Deliver(fates, gid, log, prefix, head, cursor);
      head <= p.head <= |log| && Locals(p.sent) == Locals(log[head..p.head])
    decreases |log| - head, if prefix > cursor then prefix - cursor else 0
  {
    var p := Deliver(fates, gid, log, prefix, head, cursor);
    if head < |log| {
      if !IsCross(log[head].req) || log[head].req.gsn <= cursor {
        var rest := Deliver(fates, gid, log, prefix, head + 1, cursor);
        DeliverKeepsLocals(fates, gid, log, prefix, head + 1, cursor);
        assert log[head..p.head] == [log[head]] + log[head + 1..p.head];
        LocalsConcat([log[head]], log[head + 1..p.head]);
        LocalsConcat([log[head]], rest.sent);
      } else if cursor < prefix && (!Concerns(fates, gid, cursor + 1) || Holds(log, cursor + 1)) {
        var rest := Deliver(fates, gid, log, prefix, head, cursor + 1);
        DeliverKeepsLocals(fates, gid, log, prefix, head, cursor + 1);
        if Concerns(fates, gid, cursor + 1) {
          LocalsConcat([Find(log, cursor + 1)], rest.sent);
        }
      }
    }
  }

  // ----- complete, exactly when it can be -----

  /** Everything the log's cross-group operations wait for is there: the METAs up to each
      of them, and every smaller operation that concerns the group. */
  ghost predicate Deliverable(fates: Fates, gid: nat, log: seq<Item>, prefix: nat) {
    forall i :: 0 <= i < |log| && IsCross(log[i].req) ==>
      && log[i].req.gsn <= prefix
      && forall g: nat :: 0 < g <= log[i].req.gsn && Concerns(fates, gid, g) ==> Holds(log, g)
  }

  /** Why delivery waits, and what it has settled on the way. */
  lemma {:induction false} DeliverStops(fates: Fates, gid: nat, log: seq<Item>, prefix: nat, head: nat, cursor: nat)
    requires head <= |log|
    requires forall g: nat :: 0 < g <= cursor && Concerns(fates, gid, g) ==> Holds(log, g)
    ensures var p := Deliver(fates, gid, log, prefix, head, cursor);
      && (forall g: nat :: 0 < g <= p.cursor && Concerns(fates, gid, g) ==> Holds(log, g))
      && p.head <= |log|
      && (p.head < |log| ==>
            && IsCross(log[p.head].req) && log[p.head].req.gsn > p.cursor
            && (p.cursor >= prefix || (Concerns(fates, gid, p.cursor + 1) && !Holds(log, p.cursor + 1))))
    decreases |log| - head, if prefix > cursor then prefix - cursor else 0
  {
    if head < |log| {
      if !IsCross(log[head].req) || log[head].req.gsn <= cursor {
        DeliverStops(fates, gid, log, prefix, head + 1, cursor);
      } else if cursor < prefix && (!Concerns(fates, gid, cursor + 1) || Holds(log, cursor + 1)) {
        DeliverStops(fates, gid, log, prefix, head, cursor + 1);
      }
    }
  }

  lemma CompleteIffDeliverable(fates: Fates, gid: nat, log: seq<Item>, prefix: nat)
    requires LogOk(fates, gid, log)
    ensures Delivered(fates, gid, log, prefix).head == |log| <==> Deliverable(fates, gid, log, prefix)
  {
    DeliverStops(fates, gid, log, prefix, 0, 0);
    DeliverAccounts(fates, gid, log, prefix, 0, 0);
    DeliverAscends(fates, gid, log, prefix, 0, 0);
  }

  // ----- the theorems about replicas, for every history of events -----

  /** Exactly once. A replica has delivered, once each, the items before its head and the
      cross-group operations it pulled forward; so no item is delivered twice, and a
      cross-group operation is out by the time its log position is passed. */
  lemma ExactlyOnce(fates: Fates, gid: nat, events: seq<Event>)
    requires Consistent(fates, gid, events)
    ensures
      var (d, sent) := Replica(gid, events);
      var log, head := LogOf(events), HeadOf(d, LogOf(events));
      && 0 <= head <= |log|
      && multiset(sent) == multiset(log[..head]) + multiset(OutAhead(log[head..], d.cursor))
  {
    ReplicaRefines(fates, gid, events);
    DeliverAccounts(fates, gid, LogOf(events), PrefixOf(events), 0, 0);
    OutAheadOfZero(fates, gid, LogOf(events));
    assert LogOf(events)[0..] == LogOf(events);
  }

  lemma {:induction false} OutAheadOfZero(fates: Fates, gid: nat, items: seq<Item>)
    ensures OutAhead(items, 0) == []
  {
    if items != [] {
      OutAheadOfZero(fates, gid, items[1..]);
    }
  }

  /** Order. Local requests come out in log order, cross-group operations in strictly
      increasing GSN order. */
  lemma InOrder(fates: Fates, gid: nat, events: seq<Event>)
    requires Consistent(fates, gid, events)
    ensures
      var (d, sent) := Replica(gid, events);
      var log, head := LogOf(events), HeadOf(d, LogOf(events));
      && 0 <= head <= |log|
      && Locals(sent) == Locals(log[..head])
      && Ascending(sent, 0, PrefixOf(events))
  {
    ReplicaRefines(fates, gid, events);
    DeliverAscends(fates, gid, LogOf(events), PrefixOf(events), 0, 0);
    DeliverKeepsLocals(fates, gid, LogOf(events), PrefixOf(events), 0, 0);
    assert LogOf(events)[0..HeadOf(Replica(gid, events).0, LogOf(events))]
        == LogOf(events)[..HeadOf(Replica(gid, events).0, LogOf(events))];
  }

  /** Completeness. The output is a permutation of the de-duplicated log exactly when all
      METAs and smaller operations that the log waits for are present. */
  lemma Completeness(fates: Fates, gid: nat, events: seq<Event>)
    requires Consistent(fates, gid, events)
    ensures multiset(Replica(gid, events).1) == multiset(LogOf(events))
            <==> Deliverable(fates, gid, LogOf(events), PrefixOf(events))
  {
    ReplicaRefines(fates, gid, events);
    ExactlyOnce(fates, gid, events);
    var log, prefix := LogOf(events), PrefixOf(events);
    var p := Delivered(fates, gid, log, prefix);
    CompleteIffDeliverable(fates, gid, log, prefix);
    if p.head == |log| {
      assert log[..p.head] == log && log[p.head..] == [];
    } else {
      DeliverStops(fates, gid, log, prefix, 0, 0);
      OutAheadShorter(log[p.head..], p.cursor);
      assert |multiset(p.sent)| == |multiset(log[..p.head])| + |multiset(OutAhead(log[p.head..], p.cursor))|;
    }
  }

  lemma {:induction false} OutAheadShorter(items: seq<Item>, cursor: nat)
    ensures |OutAhead(items, cursor)| <= |items|
    ensures items != [] && items[0].req.gsn > cursor ==> |OutAhead(items, cursor)| < |items|
  {
    if items != [] {
      OutAheadShorter(items[1..], cursor);
    }
  }
}
