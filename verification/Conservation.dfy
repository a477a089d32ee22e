/** Transfers between groups, with one replica per group: what every interleaving of the
    groups' deliveries does to the total of all balances, modulo 2^64. */
module Conservation {
  import opened Requests
  import opened Command
  import opened StateMachine

  /** The groups' states. */
  type States = map<nat, Data>

  /** One group delivers a request that carries a command. */
  datatype Event = Event(gid: nat, c: Command)

  /** Puts and deletions set balances outright. */
  predicate MovesOnly(c: Command) {
    c.Transfer? || c.Get?
  }

  function Balance(data: Data, key: string): Int64 {
    DecodeInt64(ValueAt(data, key))
  }

  /** The sum of the balances of some keys. */
  ghost function SumOf(data: Data, keys: set<string>): int {
    if keys == {} then 0
    else
      var k :| k in keys;
      Balance(data, k) + SumOf(data, keys - {k})
  }

  ghost function Total(data: Data): int {
    SumOf(data, data.Keys)
  }

  ghost function GrandTotal(states: States, gids: set<nat>): int
    requires gids <= states.Keys
  {
    if gids == {} then 0
    else
      var g :| g in gids;
      Total(states[g]) + GrandTotal(states, gids - {g})
  }

  /** All the money there is. */
  ghost function Money(states: States): int {
    GrandTotal(states, states.Keys)
  }

  // ----- equality modulo 2^64 -----

  predicate Congruent(a: int, b: int) {
    a % TWO_64 == b % TWO_64
  }

  lemma CongruentAdd(a: int, b: int, c: int)
    ensures Congruent(a + c, b + c) <==> Congruent(a, b)
  {
  }

  lemma WrapIsCongruent(n: int)
    ensures Congruent(Wrap64(n), n)
  {
  }

  // ----- sums over keys and groups -----

  lemma {:induction false} SumTake(data: Data, keys: set<string>, k: string)
    requires k in keys
    ensures SumOf(data, keys) == Balance(data, k) + SumOf(data, keys - {k})
  {
    var c :| c in keys && SumOf(data, keys) == Balance(data, c) + SumOf(data, keys - {c});
    if c != k {
      SumTake(data, keys - {c}, k);
      SumTake(data, keys - {k}, c);
      assert keys - {c} - {k} == keys - {k} - {c};
    }
  }

  lemma {:induction false} SumSame(a: Data, b: Data, keys: set<string>)
    requires forall k :: k in keys ==> Balance(a, k) == Balance(b, k)
    ensures SumOf(a, keys) == SumOf(b, keys)
  {
    if keys != {} {
      var k :| k in keys;
      SumSame(a, b, keys - {k});
      SumTake(a, keys, k);
      SumTake(b, keys, k);
    }
  }

  /** Setting one value changes the total by the change of that key's balance. */
  lemma TotalOfUpdate(data: Data, key: string, value: seq<Byte>)
    ensures Total(data[key := value]) == Total(data) - Balance(data, key) + DecodeInt64(value)
  {
    var after := data[key := value];
    assert after.Keys - {key} == data.Keys - {key};
    SumTake(after, after.Keys, key);
    SumSame(after, data, data.Keys - {key});
    if key in data {
      SumTake(data, data.Keys, key);
    } else {
      assert data.Keys - {key} == data.Keys;
    }
  }

  lemma {:induction false} GrandTake(states: States, gids: set<nat>, g: nat)
    requires gids <= states.Keys && g in gids
    ensures GrandTotal(states, gids) == Total(states[g]) + GrandTotal(states, gids - {g})
  {
    var c :| c in gids && GrandTotal(states, gids) == Total(states[c]) + GrandTotal(states, gids - {c});
    if c != g {
      GrandTake(states, gids - {c}, g);
      GrandTake(states, gids - {g}, c);
      assert gids - {c} - {g} == gids - {g} - {c};
    }
  }

  lemma {:induction false} GrandSame(a: States, b: States, gids: set<nat>)
    requires gids <= a.Keys && gids <= b.Keys && forall g :: g in gids ==> a[g] == b[g]
    ensures GrandTotal(a, gids) == GrandTotal(b, gids)
  {
    if gids != {} {
      var g :| g in gids;
      GrandSame(a, b, gids - {g});
      GrandTake(a, gids, g);
      GrandTake(b, gids, g);
    }
  }

  // ----- deliveries -----

  function StateAfter(gid: nat, data: Data, c: Command): Data {
    match Apply(gid, data, c)
    case Some(a) => a.data
    case None => data
  }

  /** The commands a batch carries, unrecognised requests left out. */
  function CommandsOf(requests: seq<Option<Request>>): seq<Command> {
    if requests == [] then []
    else
      CommandsOf(requests[..|requests| - 1]) + CommandsIn(requests[|requests| - 1])
  }

  function StateAfterAll(gid: nat, data: Data, commands: seq<Command>): Data {
    if commands == [] then data
    else StateAfter(gid, StateAfterAll(gid, data, commands[..|commands| - 1]), commands[|commands| - 1])
  }

  /** A batch does what its commands do. */
  lemma {:induction false} BatchIsCommands(gid: nat, data: Data, requests: seq<Option<Request>>)
    ensures ApplyAll(gid, data, requests) == StateAfterAll(gid, data, CommandsOf(requests))
  {
    if requests != [] {
      var before := requests[..|requests| - 1];
      BatchIsCommands(gid, data, before);
      LastCommand(gid, ApplyAll(gid, data, before), data, CommandsOf(before), requests[|requests| - 1]);
    }
  }

  function CommandsIn(req: Option<Request>): seq<Command> {
    if req == None || req.value.id == None then []
    else
      match DecodeAPICommand(req.value.payload)
      case Some(c) => [c]
      case None => []
  }

  lemma LastCommand(gid: nat, middle: Data, data: Data, commands: seq<Command>, req: Option<Request>)
    requires middle == StateAfterAll(gid, data, commands)
    ensures StateAfterAll(gid, data, commands + CommandsIn(req)) ==
      match ApplyRequest(gid, middle, req)
      case Some(a) => a.data
      case None => middle
  {
    if CommandsIn(req) == [] {
      assert commands + CommandsIn(req) == commands;
    } else {
      var all := commands + CommandsIn(req);
      assert all[..|all| - 1] == commands;
    }
  }

  function Deliver(states: States, e: Event): States {
    if e.gid in states then states[e.gid := StateAfter(e.gid, states[e.gid], e.c)] else states
  }

  function DeliverAll(states: States, events: seq<Event>): States {
    if events == [] then states else Deliver(DeliverAll(states, events[..|events| - 1]), events[|events| - 1])
  }

  /** The credit (or debit, if negative) a command makes at a group. */
  function MovedAt(gid: nat, c: Command): int {
    match c
    case Transfer(fromGroup, _, toGroup, _, amount) =>
      var n: int := amount;
      if gid == fromGroup then -n else if gid == toGroup then n else 0
    case _ => 0
  }

  function MovedBy(events: seq<Event>): int {
    if events == [] then 0 else MovedBy(events[..|events| - 1]) + MovedAt(events[|events| - 1].gid, events[|events| - 1].c)
  }

  /** Adding to a balance, with wrap-around. */
  lemma AddMoves(data: Data, key: string, delta: Int64)
    ensures Congruent(Total(AddBalance(data, key, delta)), Total(data) + delta)
  {
    var sum: int := Balance(data, key) + delta;
    TotalOfUpdate(data, key, EncodeInt64(Wrap64(sum)));
    Int64RoundTrip(Wrap64(sum));
    WrapIsCongruent(sum);
    CongruentAdd(Wrap64(sum), sum, Total(data) - Balance(data, key));
  }

  lemma CommandMoves(gid: nat, data: Data, c: Command)
    requires MovesOnly(c)
    ensures Congruent(Total(StateAfter(gid, data, c)), Total(data) + MovedAt(gid, c))
  {
    if c.Transfer? {
      if gid == c.fromGroup {
        var n: int := c.amount;
        AddMoves(data, c.fromKey, Negate(c.amount));
        WrapIsCongruent(-n);
        CongruentAdd(Wrap64(-n), -n, Total(data));
      } else if gid == c.toGroup {
        AddMoves(data, c.toKey, c.amount);
      }
    }
  }

  lemma DeliveryMoves(states: States, e: Event)
    requires e.gid in states && MovesOnly(e.c)
    ensures Deliver(states, e).Keys == states.Keys
    ensures Congruent(Money(Deliver(states, e)), Money(states) + MovedAt(e.gid, e.c))
  {
    var after := Deliver(states, e);
    CommandMoves(e.gid, states[e.gid], e.c);
    GrandTake(states, states.Keys, e.gid);
    GrandTake(after, states.Keys, e.gid);
    GrandSame(states, after, states.Keys - {e.gid});
    CongruentAdd(Total(after[e.gid]), Total(states[e.gid]) + MovedAt(e.gid, e.c), GrandTotal(states, states.Keys - {e.gid}));
  }

  /** For every interleaving of deliveries: the total differs from the initial one by the
      credits made so far minus the debits made so far. */
  lemma {:induction false} TotalFollowsMoves(states: States, events: seq<Event>)
    requires forall i :: 0 <= i < |events| ==> events[i].gid in states && MovesOnly(events[i].c)
    ensures DeliverAll(states, events).Keys == states.Keys
    ensures Congruent(Money(DeliverAll(states, events)), Money(states) + MovedBy(events))
  {
    if events == [] {
    } else {
      var before, e := events[..|events| - 1], events[|events| - 1];
      TotalFollowsMoves(states, before);
      var middle := DeliverAll(states, before);
      DeliveryMoves(middle, e);
      var moved := MovedAt(e.gid, e.c);
      CongruentAdd(Money(middle), Money(states) + MovedBy(before), moved);
    }
  }

  // ----- when every transfer has been delivered at its groups -----

  /** The deliveries of one transfer: once at each group it touches. */
  function DeliveriesOf(c: Command): seq<Event>
    requires c.Transfer?
  {
    if c.fromGroup == c.toGroup then [Event(c.fromGroup, c)] else [Event(c.fromGroup, c), Event(c.toGroup, c)]
  }

  predicate AllTransfers(transfers: seq<Command>) {
    forall i :: 0 <= i < |transfers| ==> transfers[i].Transfer?
  }

  function DeliveriesOfAll(transfers: seq<Command>): seq<Event>
    requires AllTransfers(transfers)
  {
    if transfers == [] then [] else DeliveriesOf(transfers[0]) + DeliveriesOfAll(transfers[1..])
  }

  /** The amounts of transfers whose source and target group are the same. */
  function SameGroupAmount(transfers: seq<Command>): int
    requires AllTransfers(transfers)
  {
    if transfers == [] then 0
    else
      var n: int := if transfers[0].fromGroup == transfers[0].toGroup then transfers[0].amount else 0;
      n + SameGroupAmount(transfers[1..])
  }

  lemma {:induction false} MovedByConcat(a: seq<Event>, b: seq<Event>)
    ensures MovedBy(a + b) == MovedBy(a) + MovedBy(b)
  {
    if b == [] {
      assert a + b == a;
    } else {
      assert (a + b)[..|a + b| - 1] == a + b[..|b| - 1];
      MovedByConcat(a, b[..|b| - 1]);
    }
  }

  /** What moves does not depend on the order of deliveries. */
  lemma {:induction false} MovedByAnyOrder(a: seq<Event>, b: seq<Event>)
    requires multiset(a) == multiset(b)
    ensures MovedBy(a) == MovedBy(b)
  {
    if a == [] {
      assert |b| == |multiset(b)| == 0;
    } else {
      var last := a[|a| - 1];
      var init := a[..|a| - 1];
      assert a == init + [last];
      assert last in multiset(b);
      var i :| 0 <= i < |b| && b[i] == last;
      assert b == b[..i] + [last] + b[i + 1..];
      assert multiset(init) == multiset(a) - multiset{last};
      assert multiset(b[..i] + b[i + 1..]) == multiset(b) - multiset{last};
      MovedByAnyOrder(init, b[..i] + b[i + 1..]);
      MovedByConcat(b[..i], b[i + 1..]);
      MovedByConcat(b[..i] + [last], b[i + 1..]);
      MovedByConcat(b[..i], [last]);
      MovedByOne(last);
    }
  }

  lemma MovedByOne(e: Event)
    ensures MovedBy([e]) == MovedAt(e.gid, e.c)
  {
    assert [e][..0] == [];
  }

  lemma {:induction false} MovesOfAll(transfers: seq<Command>)
    requires AllTransfers(transfers)
    ensures MovedBy(DeliveriesOfAll(transfers)) == -SameGroupAmount(transfers)
    ensures forall i :: 0 <= i < |DeliveriesOfAll(transfers)| ==> DeliveriesOfAll(transfers)[i].c.Transfer?
  {
    if transfers != [] {
      var e := DeliveriesOf(transfers[0]);
      MovesOfAll(transfers[1..]);
      MovedByConcat(e, DeliveriesOfAll(transfers[1..]));
      MovedByOne(e[0]);
      if |e| == 2 {
        assert e == [e[0]] + [e[1]];
        MovedByOne(e[1]);
        MovedByConcat([e[0]], [e[1]]);
      } else {
        assert e == [e[0]];
      }
    }
  }

  lemma CompletedMoves(transfers: seq<Command>, events: seq<Event>)
    requires AllTransfers(transfers) && multiset(events) == multiset(DeliveriesOfAll(transfers))
    ensures MovedBy(events) == -SameGroupAmount(transfers)
    ensures forall i :: 0 <= i < |events| ==> MovesOnly(events[i].c)
  {
    MovesOfAll(transfers);
    MovedByAnyOrder(events, DeliveriesOfAll(transfers));
    forall i | 0 <= i < |events|
      ensures events[i].c.Transfer?
    {
      assert events[i] in multiset(events);
      assert events[i] in DeliveriesOfAll(transfers);
    }
  }

  lemma MoneyAfterMoves(states: States, events: seq<Event>, lost: int)
    requires forall i :: 0 <= i < |events| ==> events[i].gid in states && MovesOnly(events[i].c)
    requires MovedBy(events) == -lost
    ensures Congruent(Money(DeliverAll(states, events)), Money(states)) <==> Congruent(lost, 0)
  {
    TotalFollowsMoves(states, events);
    ConservedIff(Money(DeliverAll(states, events)), Money(states), lost);
  }

  /** Conservation. Once every transfer of a list has been delivered exactly once at each of
      its groups, in any interleaving, the total is what it was exactly when the amounts of
      the transfers within a single group cancel out: a transfer whose source and target
      group are the same is debited and never credited. */
  lemma ConservedIffAcrossGroups(states: States, transfers: seq<Command>, events: seq<Event>)
    requires AllTransfers(transfers) && multiset(events) == multiset(DeliveriesOfAll(transfers))
    requires forall i :: 0 <= i < |events| ==> events[i].gid in states
    ensures Congruent(Money(DeliverAll(states, events)), Money(states)) <==> Congruent(SameGroupAmount(transfers), 0)
  {
    CompletedMoves(transfers, events);
    MoneyAfterMoves(states, events, SameGroupAmount(transfers));
  }

  lemma ConservedIff(after: int, before: int, lost: int)
    requires Congruent(after, before - lost)
    ensures Congruent(after, before) <==> Congruent(lost, 0)
  {
    CongruentAdd(before - lost, before, lost - before);
  }

  predicate AcrossGroups(transfers: seq<Command>)
    requires AllTransfers(transfers)
  {
    forall i :: 0 <= i < |transfers| ==> transfers[i].fromGroup != transfers[i].toGroup
  }

  lemma {:induction false} NoneWithinGroups(transfers: seq<Command>)
    requires AllTransfers(transfers) && AcrossGroups(transfers)
    ensures SameGroupAmount(transfers) == 0
  {
    if transfers != [] {
      NoneWithinGroups(transfers[1..]);
    }
  }

  /** The case the design intends, source and target different in every transfer: nothing is lost. */
  lemma AcrossGroupsNothingIsLost(states: States, transfers: seq<Command>, events: seq<Event>)
    requires AllTransfers(transfers) && AcrossGroups(transfers)
    requires multiset(events) == multiset(DeliveriesOfAll(transfers))
    requires forall i :: 0 <= i < |events| ==> events[i].gid in states
    ensures Congruent(Money(DeliverAll(states, events)), Money(states))
  {
    NoneWithinGroups(transfers);
    ConservedIffAcrossGroups(states, transfers, events);
  }

  // ----- while transfers are under way -----

  /** The amounts that a list of deliveries debits, and those that it credits. */
  function Debits(events: seq<Event>): int {
    if events == [] then 0 else Debits(events[..|events| - 1]) + DebitOf(events[|events| - 1])
  }

  function Credits(events: seq<Event>): int {
    if events == [] then 0 else Credits(events[..|events| - 1]) + CreditOf(events[|events| - 1])
  }

  function DebitOf(e: Event): int {
    if e.c.Transfer? && e.gid == e.c.fromGroup then e.c.amount else 0
  }

  function CreditOf(e: Event): int {
    if e.c.Transfer? && e.gid != e.c.fromGroup && e.gid == e.c.toGroup then e.c.amount else 0
  }

  lemma {:induction false} MovedIsCreditsMinusDebits(events: seq<Event>)
    ensures MovedBy(events) == Credits(events) - Debits(events)
  {
    if events != [] {
      MovedIsCreditsMinusDebits(events[..|events| - 1]);
    }
  }

  lemma PartMoves(transfers: seq<Command>, done: seq<Event>, rest: seq<Event>)
    requires AllTransfers(transfers) && multiset(done) + multiset(rest) == multiset(DeliveriesOfAll(transfers))
    requires AcrossGroups(transfers)
    ensures MovedBy(done) == Debits(rest) - Credits(rest)
    ensures forall i :: 0 <= i < |done| ==> MovesOnly(done[i].c)
  {
    NoneWithinGroups(transfers);
    assert multiset(done + rest) == multiset(DeliveriesOfAll(transfers));
    CompletedMoves(transfers, done + rest);
    MovedByConcat(done, rest);
    MovedIsCreditsMinusDebits(rest);
    assert forall i :: 0 <= i < |done| ==> (done + rest)[i] == done[i];
  }

  lemma MoneyMoved(states: States, events: seq<Event>, moved: int, after: States, total: int)
    requires forall i :: 0 <= i < |events| ==> events[i].gid in states && MovesOnly(events[i].c)
    requires MovedBy(events) == moved && after == DeliverAll(states, events) && total == Money(states) + moved
    ensures Congruent(Money(after), total)
  {
    TotalFollowsMoves(states, events);
  }

  /** Conservation under way. When any part of the deliveries of some transfers has been made, in
      any interleaving, the total is the initial one plus the debits still to come and minus
      the credits still to come. A transfer that has not begun comes in as both; so what is
      missing are debits not yet credited, and what is too much are credits not yet debited. */
  lemma MoneyUnderWay(states: States, transfers: seq<Command>, done: seq<Event>, rest: seq<Event>, after: States, total: int)
    requires AllTransfers(transfers) && AcrossGroups(transfers)
    requires multiset(done) + multiset(rest) == multiset(DeliveriesOfAll(transfers))
    requires forall i :: 0 <= i < |done| ==> done[i].gid in states
    requires after == DeliverAll(states, done) && total == Money(states) + Debits(rest) - Credits(rest)
    ensures Congruent(Money(after), total)
  {
    PartMoves(transfers, done, rest);
    MoneyMoved(states, done, Debits(rest) - Credits(rest), after, total);
  }

  /** A transfer of 5 inside group 1 that loses 5. */
  lemma SameGroupTransferLoses()
    ensures
      var states: States := map[1 := map[]];
      var after := DeliverAll(states, [Event(1, Transfer(1, "a", 1, "b", 5))]);
      !Congruent(Money(after), Money(states))
  {
    var c := Transfer(1, "a", 1, "b", 5);
    assert [c][1..] == [];
    assert DeliveriesOfAll([c]) == [Event(1, c)];
    assert SameGroupAmount([c]) == 5;
    var states: States := map[1 := map[]];
    ConservedIffAcrossGroups(states, [c], [Event(1, c)]);
    assert !Congruent(5, 0);
  }
}
