/** What a group deliverer's output is a function of: the group's de-duplicated log and the
    length of the known META prefix, and nothing else.

    The one assumption, stated once as `Consistent`: every GSN has one fate at all nodes (a
    META with a fixed group list, or skipped), and every cross-group operation in the
    group's log has a META that lists the group. */
module GroupDeliverySpec {
  import opened Requests
  import opened Metas
  import opened GroupDelivery

  /** The groups of every GSN; an empty list for a GSN that was skipped. */
  type Fates = nat -> seq<nat>

  /** Must the group deliver this GSN? */
  predicate Concerns(fates: Fates, gid: nat, gsn: nat) {
    |fates(gsn)| >= 2 && gid in fates(gsn)
  }

  predicate IsCopyOf(it: Item, gsn: nat) {
    IsCross(it.req) && it.req.gsn == gsn
  }

  /** Does the log hold the cross-group operation with this GSN? */
  predicate Holds(log: seq<Item>, gsn: nat) {
    log != [] && (IsCopyOf(log[0], gsn) || Holds(log[1..], gsn))
  }

  function Find(log: seq<Item>, gsn: nat): (it: Item)
    requires Holds(log, gsn)
    ensures it in log && IsCopyOf(it, gsn)
  {
    if IsCopyOf(log[0], gsn) then log[0] else Find(log[1..], gsn)
  }

  lemma {:induction false} HoldsAt(log: seq<Item>, i: nat)
    requires i < |log| && IsCross(log[i].req)
    ensures Holds(log, log[i].req.gsn)
  {
    if i > 0 {
      HoldsAt(log[1..], i - 1);
    }
  }

  lemma {:induction false} HoldsWhere(log: seq<Item>, gsn: nat) returns (i: nat)
    requires Holds(log, gsn)
    ensures i < |log| && IsCopyOf(log[i], gsn)
  {
    if IsCopyOf(log[0], gsn) {
      i := 0;
    } else {
      i := HoldsWhere(log[1..], gsn);
      i := i + 1;
    }
  }

  lemma {:induction false} HoldsConcat(a: seq<Item>, b: seq<Item>, gsn: nat)
    ensures Holds(a + b, gsn) <==> Holds(a, gsn) || Holds(b, gsn)
  {
    if a == [] {
      assert a + b == b;
    } else {
      assert (a + b)[0] == a[0] && (a + b)[1..] == a[1..] + b;
      HoldsConcat(a[1..], b, gsn);
    }
  }

  /** Deliveries from some point on, and the point where delivery has to wait: a position
      of the log, and the last GSN settled. */
  datatype Progress = Progress(sent: seq<Item>, head: nat, cursor: nat)

  function After(sent: seq<Item>, p: Progress): Progress {
    p.(sent := sent + p.sent)
  }

  /** The reference: read the log in order; a local request goes out in its place, and a
      cross-group operation not yet out first settles every smaller GSN, in order. */
  function Deliver(fates: Fates, gid: nat, log: seq<Item>, prefix: nat, head: nat, cursor: nat): Progress
    requires head <= |log|
    decreases |log| - head, if prefix > cursor then prefix - cursor else 0
  {
    if head == |log| then Progress([], head, cursor)
    else if !IsCross(log[head].req) then After([log[head]], Deliver(fates, gid, log, prefix, head + 1, cursor))
    else if log[head].req.gsn <= cursor then Deliver(fates, gid, log, prefix, head + 1, cursor)
    else if cursor >= prefix then Progress([], head, cursor)
    else if !Concerns(fates, gid, cursor + 1) then Deliver(fates, gid, log, prefix, head, cursor + 1)
    else if !Holds(log, cursor + 1) then Progress([], head, cursor)
    else After([Find(log, cursor + 1)], Deliver(fates, gid, log, prefix, head, cursor + 1))
  }

  function Delivered(fates: Fates, gid: nat, log: seq<Item>, prefix: nat): Progress {
    Deliver(fates, gid, log, prefix, 0, 0)
  }

  // ----- a replica's inputs -----

  datatype Event =
    | Pushed(sn: int, leader: bool, requests: seq<Option<Request>>)
    | Meta(gsn: nat, groups: seq<nat>)
    | Skip(from: nat, to: nat)

  function Handle(d: Deliverer, e: Event): (r: (Deliverer, seq<Item>))
    requires d.head <= |d.log|
    ensures r.0.head <= |r.0.log|
  {
    match e
    case Pushed(sn, leader, requests) => Push(d, sn, leader, requests)
    case Meta(gsn, groups) => OnMeta(d, gsn, groups)
    case Skip(from, to) => OnSkip(d, from, to)
  }

  /** A replica of group `gid` after a history of events: its state and all it delivered. */
  function Replica(gid: nat, events: seq<Event>): (r: (Deliverer, seq<Item>))
    ensures r.0.head <= |r.0.log|
  {
    if events == [] then (NewDeliverer(gid), [])
    else
      var (d, sent) := Replica(gid, events[..|events| - 1]);
      var (d1, more) := Handle(d, events[|events| - 1]);
      (d1, sent + more)
  }

  /** A log without repeated copies of cross-group operations. */
  function Add(log: seq<Item>, it: Item): seq<Item> {
    if IsCross(it.req) && Holds(log, it.req.gsn) then log else log + [it]
  }

  function AddAll(log: seq<Item>, sn: int, leader: bool, requests: seq<Option<Request>>): seq<Item> {
    if requests == [] then log
    else
      var log1 := AddAll(log, sn, leader, requests[..|requests| - 1]);
      var last := requests[|requests| - 1];
      if last == None then log1 else Add(log1, Item(sn, leader, last.value))
  }

  /** The de-duplicated log a history pushed, and the GSNs whose fate it made known. */
  function LogOf(events: seq<Event>): seq<Item> {
    if events == [] then []
    else
      var log := LogOf(events[..|events| - 1]);
      match events[|events| - 1]
      case Pushed(sn, leader, requests) => AddAll(log, sn, leader, requests)
      case _ => log
  }

  function KnownBy(e: Event): set<nat> {
    match e
    case Pushed(_, _, _) => {}
    case Meta(gsn, _) => if gsn > 0 then {gsn} else {}
    case Skip(from, to) => if from > 0 then set g: nat | g <= to && InRange(from, to, g) else {}
  }

  function KnownOf(events: seq<Event>): set<nat> {
    if events == [] then {} else KnownOf(events[..|events| - 1]) + KnownBy(events[|events| - 1])
  }

  /** Says what becomes of a GSN: its META, or a skip of a range with it. */
  predicate Tells(e: Event, g: nat) {
    match e
    case Pushed(_, _, _) => false
    case Meta(gsn, _) => gsn == g && g > 0
    case Skip(from, to) => 0 < from <= g <= to
  }

  /** A history knows of a GSN exactly when one of its events told it. */
  lemma {:induction false} KnownExactly(events: seq<Event>, g: nat)
    ensures g in KnownOf(events) <==> exists i :: 0 <= i < |events| && Tells(events[i], g)
  {
    if events != [] {
      var before, last := events[..|events| - 1], |events| - 1;
      KnownExactly(before, g);
      assert g in KnownBy(events[last]) <==> Tells(events[last], g);
      assert forall i :: 0 <= i < last ==> events[i] == before[i];
    }
  }

  /** How far the METAs known to a history reach without a gap. */
  function PrefixOf(events: seq<Event>): nat {
    Extend(KnownOf(events), 0)
  }

  // ----- the assumption -----

  ghost predicate ConsistentEvent(fates: Fates, gid: nat, e: Event) {
    match e
    case Pushed(_, _, requests) =>
      forall i :: 0 <= i < |requests| && requests[i].Some? && IsCross(requests[i].value) ==>
        Concerns(fates, gid, requests[i].value.gsn)
    case Meta(gsn, groups) => fates(gsn) == groups
    case Skip(from, to) => forall g: nat :: from <= g <= to ==> fates(g) == []
  }

  ghost predicate Consistent(fates: Fates, gid: nat, events: seq<Event>) {
    forall i :: 0 <= i < |events| ==> ConsistentEvent(fates, gid, events[i])
  }

  /** A log that can be delivered: its cross-group operations concern the group, once each. */
  ghost predicate LogOk(fates: Fates, gid: nat, log: seq<Item>) {
    Distinct(log) && forall g: nat {:trigger Holds(log, g)} :: Holds(log, g) ==> g > 0 && Concerns(fates, gid, g)
  }

  predicate Distinct(log: seq<Item>) {
    log == [] || (Distinct(log[1..]) && (IsCross(log[0].req) ==> !Holds(log[1..], log[0].req.gsn)))
  }

  // ----- the state of a deliverer, seen from its whole log -----

  /** Position of the head in the whole log, before compaction. */
  function HeadOf(d: Deliverer, log: seq<Item>): int {
    |log| - |d.log| + d.head
  }

  /** How the five structures of the deliverer depend on each other. */
  ghost predicate Represents(d: Deliverer, fates: Fates, log: seq<Item>, known: set<nat>) {
    && LogOk(fates, d.gid, log)
    && LogMatches(d, log)
    && MetaOk(d, fates, known)
    && CrossOk(d, log)
    && EarlyOk(d, log)
    && PassedOk(d, log)
    && SettledOk(d, fates, log)
  }

  ghost predicate LogMatches(d: Deliverer, log: seq<Item>) {
    d.head <= |d.log| <= |log| && d.log == log[|log| - |d.log|..]
  }

  ghost predicate MetaOk(d: Deliverer, fates: Fates, known: set<nat>) {
    && d.cursor <= d.metaPrefix && IsRunEnd(known, 0, d.metaPrefix)
    && (forall g {:trigger g in d.meta} :: g in d.meta <==> g in known && g > d.cursor)
    && (forall g {:trigger d.meta[g]} :: g in d.meta ==> d.meta[g] == fates(g))
  }

  /** `crossInLog` finds every cross-group operation of the log that is not out yet. */
  ghost predicate CrossOk(d: Deliverer, log: seq<Item>) {
    && (forall g: nat {:trigger g in d.crossInLog} :: g in d.crossInLog <==> g > d.cursor && Holds(log, g))
    && (forall g: nat {:trigger d.crossInLog[g]} :: g in d.crossInLog ==> d.crossInLog[g] == Find(log, g))
  }

  /** `early` holds the GSNs that are out although the head has not reached them. */
  ghost predicate EarlyOk(d: Deliverer, log: seq<Item>)
    requires LogMatches(d, log)
  {
    forall g: nat {:trigger g in d.early} :: g in d.early <==> g <= d.cursor && Holds(d.log[d.head..], g)
  }

  ghost predicate PassedOk(d: Deliverer, log: seq<Item>)
    requires LogMatches(d, log)
  {
    forall g: nat {:trigger Holds(log[..HeadOf(d, log)], g)} :: Holds(log[..HeadOf(d, log)], g) ==> g <= d.cursor
  }

  ghost predicate SettledOk(d: Deliverer, fates: Fates, log: seq<Item>) {
    forall g: nat {:trigger Concerns(fates, d.gid, g)} :: 0 < g <= d.cursor && Concerns(fates, d.gid, g) ==> Holds(log, g)
  }

  // ----- the reference only ever grows with its inputs -----

  lemma {:induction false} FindStable(log: seq<Item>, more: seq<Item>, gsn: nat)
    requires Holds(log, gsn)
    ensures Holds(log + more, gsn) && Find(log + more, gsn) == Find(log, gsn)
  {
    assert (log + more)[0] == log[0];
    if !IsCopyOf(log[0], gsn) {
      assert (log + more)[1..] == log[1..] + more;
      FindStable(log[1..], more, gsn);
    }
  }

  /** Delivery with more of the log and more METAs first delivers what it delivered without
      them and reaches the same point, then goes on from there. */
  lemma {:induction false} DeliverGrows(fates: Fates, gid: nat, log: seq<Item>, more: seq<Item>, prefix: nat, prefix': nat,
                                        head: nat, cursor: nat)
    requires head <= |log| && prefix <= prefix'
    ensures
      var p := Deliver(fates, gid, log, prefix, head, cursor);
      && p.head <= |log|
      && Deliver(fates, gid, log + more, prefix', head, cursor)
         == After(p.sent, Deliver(fates, gid, log + more, prefix', p.head, p.cursor))
    decreases |log| - head, if prefix > cursor then prefix - cursor else 0
  {
    var p := Deliver(fates, gid, log, prefix, head, cursor);
    if head == |log| {
      AfterNothing(Deliver(fates, gid, log + more, prefix', p.head, p.cursor));
    } else {
      assert (log + more)[head] == log[head];
      if !IsCross(log[head].req) {
        DeliverGrows(fates, gid, log, more, prefix, prefix', head + 1, cursor);
        AfterAfter([log[head]], p.sent[1..], Deliver(fates, gid, log + more, prefix', p.head, p.cursor));
      } else if log[head].req.gsn <= cursor {
        DeliverGrows(fates, gid, log, more, prefix, prefix', head + 1, cursor);
      } else if cursor >= prefix {
        AfterNothing(Deliver(fates, gid, log + more, prefix', p.head, p.cursor));
      } else if !Concerns(fates, gid, cursor + 1) {
        DeliverGrows(fates, gid, log, more, prefix, prefix', head, cursor + 1);
      } else if !Holds(log, cursor + 1) {
        AfterNothing(Deliver(fates, gid, log + more, prefix', p.head, p.cursor));
      } else {
        FindStable(log, more, cursor + 1);
        DeliverGrows(fates, gid, log, more, prefix, prefix', head, cursor + 1);
        AfterAfter([Find(log, cursor + 1)], p.sent[1..], Deliver(fates, gid, log + more, prefix', p.head, p.cursor));
      }
    }
  }

  lemma AfterNothing(p: Progress)
    ensures After([], p) == p
  {
    assert [] + p.sent == p.sent;
  }

  lemma AfterAfter(a: seq<Item>, b: seq<Item>, p: Progress)
    ensures After(a, After(b, p)) == After(a + b, p)
  {
    assert a + (b + p.sent) == (a + b) + p.sent;
  }
}
