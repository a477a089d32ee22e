/** The total of all balances over replicas: one replica of each group, each with its own history
    of log batches, METAs and skips, applying what it delivers. */
module DeliveredMoney {
  import opened Requests
  import opened Command
  import opened StateMachine
  import opened Conservation
  import opened ReplicaState
  import GroupDeliverySpec
  import Buckets

  type History = seq<GroupDeliverySpec.Event>

  function EventsAt(gid: nat, commands: seq<Command>): seq<Event> {
    if commands == [] then []
    else EventsAt(gid, commands[..|commands| - 1]) + [Event(gid, commands[|commands| - 1])]
  }

  /** What a replica of a group has delivered: the commands among its output, in order. */
  function DeliveredAt(gid: nat, history: History): seq<Event> {
    EventsAt(gid, CommandsOf(RequestsOf(GroupDeliverySpec.Replica(gid, history).1)))
  }

  /** What the replicas of some groups have delivered, group after group. */
  function DeliveredBy(groups: seq<nat>, histories: map<nat, History>): seq<Event>
    requires forall g :: g in groups ==> g in histories
  {
    if groups == [] then [] else DeliveredAt(groups[0], histories[groups[0]]) + DeliveredBy(groups[1..], histories)
  }

  /** The state of a replica that has applied all it delivered. */
  function FinalState(gid: nat, data: Data, history: History): Data {
    ApplyAll(gid, data, RequestsOf(GroupDeliverySpec.Replica(gid, history).1))
  }

  function FinalStates(states: States, histories: map<nat, History>): States
    requires states.Keys == histories.Keys
  {
    map g | g in states :: FinalState(g, states[g], histories[g])
  }

  lemma {:induction false} DeliverConcat(states: States, a: seq<Event>, b: seq<Event>)
    ensures DeliverAll(states, a + b) == DeliverAll(DeliverAll(states, a), b)
  {
    if b == [] {
      assert a + b == a;
    } else {
      assert (a + b)[..|a + b| - 1] == a + b[..|b| - 1];
      DeliverConcat(states, a, b[..|b| - 1]);
    }
  }

  lemma {:induction false} OneGroup(states: States, gid: nat, commands: seq<Command>)
    requires gid in states
    ensures DeliverAll(states, EventsAt(gid, commands)) == states[gid := StateAfterAll(gid, states[gid], commands)]
  {
    if commands == [] {
      assert states[gid := states[gid]] == states;
    } else {
      var before := commands[..|commands| - 1];
      OneGroup(states, gid, before);
      assert EventsAt(gid, commands)[..|EventsAt(gid, commands)| - 1] == EventsAt(gid, before);
    }
  }

  lemma OneReplica(states: States, gid: nat, history: History)
    requires gid in states
    ensures DeliverAll(states, DeliveredAt(gid, history)) == states[gid := FinalState(gid, states[gid], history)]
  {
    var requests := RequestsOf(GroupDeliverySpec.Replica(gid, history).1);
    OneGroup(states, gid, CommandsOf(requests));
    BatchIsCommands(gid, states[gid], requests);
  }

  /** The replicas' states are those after one interleaving of all their deliveries. */
  lemma {:induction false} AllReplicas(states: States, groups: seq<nat>, histories: map<nat, History>, g: nat)
    requires Buckets.Distinct(groups) && forall k :: k in groups ==> k in histories && k in states
    ensures DeliverAll(states, DeliveredBy(groups, histories)).Keys == states.Keys
    ensures g in states ==>
      DeliverAll(states, DeliveredBy(groups, histories))[g]
      == if g in groups then FinalState(g, states[g], histories[g]) else states[g]
  {
    if groups != [] {
      var first := groups[0];
      var states1 := states[first := FinalState(first, states[first], histories[first])];
      OneReplica(states, first, histories[first]);
      DeliverConcat(states, DeliveredAt(first, histories[first]), DeliveredBy(groups[1..], histories));
      AllReplicas(states1, groups[1..], histories, g);
    }
  }

  lemma FinalStatesByDelivery(states: States, groups: seq<nat>, histories: map<nat, History>)
    requires Buckets.Distinct(groups) && states.Keys == histories.Keys && forall g :: g in groups <==> g in states
    ensures FinalStates(states, histories) == DeliverAll(states, DeliveredBy(groups, histories))
  {
    forall g | g in states
      ensures DeliverAll(states, DeliveredBy(groups, histories)).Keys == states.Keys
      ensures FinalStates(states, histories)[g] == DeliverAll(states, DeliveredBy(groups, histories))[g]
    {
      AllReplicas(states, groups, histories, g);
    }
    AllReplicas(states, groups, histories, 0);
  }

  lemma {:induction false} DeliveredWhere(groups: seq<nat>, histories: map<nat, History>, states: States)
    requires forall g :: g in groups ==> g in histories && g in states
    ensures forall i :: 0 <= i < |DeliveredBy(groups, histories)| ==> DeliveredBy(groups, histories)[i].gid in states
  {
    if groups != [] {
      DeliveredWhere(groups[1..], histories, states);
      EventsWhere(groups[0], CommandsOf(RequestsOf(GroupDeliverySpec.Replica(groups[0], histories[groups[0]]).1)));
    }
  }

  lemma {:induction false} EventsWhere(gid: nat, commands: seq<Command>)
    ensures forall i :: 0 <= i < |EventsAt(gid, commands)| ==> EventsAt(gid, commands)[i].gid == gid
  {
    if commands != [] {
      EventsWhere(gid, commands[..|commands| - 1]);
    }
  }

  /** Conservation end to end. One replica of each group has delivered its log with METAs and skips
      in any order; among all they delivered are the deliveries of some transfers across groups,
      but for `rest`, and nothing else that sets balances. Then the total of all balances is
      the initial one plus the debits still to come and minus the credits still to come. */
  lemma ReplicasConserve(states: States, groups: seq<nat>, histories: map<nat, History>, transfers: seq<Command>,
                         rest: seq<Event>, total: int)
    requires Buckets.Distinct(groups) && states.Keys == histories.Keys && forall g :: g in groups <==> g in states
    requires AllTransfers(transfers) && AcrossGroups(transfers)
    requires multiset(DeliveredBy(groups, histories)) + multiset(rest) == multiset(DeliveriesOfAll(transfers))
    requires total == Money(states) + Debits(rest) - Credits(rest)
    ensures Congruent(Money(FinalStates(states, histories)), total)
  {
    FinalStatesByDelivery(states, groups, histories);
    DeliveredWhere(groups, histories, states);
    MoneyUnderWay(states, transfers, DeliveredBy(groups, histories), rest, FinalStates(states, histories), total);
  }
}
