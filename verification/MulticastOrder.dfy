/** The deliveries of all groups together: the union of the groups' delivery orders, over
    local and cross-group requests alike, has no cycle. */
module MulticastOrder {
  import opened Requests
  import opened GroupDelivery
  import opened GroupDeliverySpec
  import opened GroupDeliveryTheorems
  import opened GroupReplicas

  /** A replica of a group and its history. */
  datatype Member = Member(gid: nat, events: seq<Event>)

  /** A delivered request as the whole system sees it: a cross-group operation by its GSN,
      a local one by its group and its place in the group's delivery order. */
  datatype Delivery = CrossOp(gsn: nat) | LocalOp(gid: nat, place: nat)

  ghost predicate System(fates: Fates, members: seq<Member>) {
    && (forall m :: m in members ==> Consistent(fates, m.gid, m.events))
    && (forall m1, m2 :: m1 in members && m2 in members && m1.gid == m2.gid ==>
          Strip(Decided(m1.events)) <= Strip(Decided(m2.events)) || Strip(Decided(m2.events)) <= Strip(Decided(m1.events)))
  }

  function OutputOf(m: Member): seq<Item> {
    Output(m.gid, m.events)
  }

  function DeliveryAt(m: Member, i: nat): Delivery
    requires i < |OutputOf(m)|
  {
    var req := OutputOf(m)[i].req;
    if IsCross(req) then CrossOp(req.gsn) else LocalOp(m.gid, i)
  }

  ghost predicate DeliveredBeforeAt(m: Member, i: nat, j: nat, x: Delivery, y: Delivery) {
    i < j < |OutputOf(m)| && DeliveryAt(m, i) == x && DeliveryAt(m, j) == y
  }

  /** Some replica of some group delivers x before y. */
  ghost predicate Before(members: seq<Member>, x: Delivery, y: Delivery) {
    exists m, i, j :: m in members && DeliveredBeforeAt(m, i, j, x, y)
  }

  ghost predicate Linked<T>(chain: seq<T>, related: (T, T) -> bool) {
    |chain| >= 2 && forall i {:trigger chain[i]} :: 0 <= i < |chain| - 1 ==> related(chain[i], chain[i + 1])
  }

  /** Following the links of a chain climbs in any transitive order that contains them. */
  lemma {:induction false} LinksClimb<T(!new)>(chain: seq<T>, related: (T, T) -> bool, below: (T, T) -> bool)
    requires Linked(chain, related)
    requires forall x, y :: related(x, y) ==> below(x, y)
    requires forall x, y, z :: below(x, y) && below(y, z) ==> below(x, z)
    ensures below(chain[0], chain[|chain| - 1])
  {
    assert related(chain[0], chain[0 + 1]);
    if |chain| > 2 {
      var rest := chain[1..];
      forall i {:trigger rest[i]} | 0 <= i < |rest| - 1
        ensures related(rest[i], rest[i + 1])
      {
        assert related(chain[i + 1], chain[i + 1 + 1]);
      }
      LinksClimb(rest, related, below);
    }
  }

  ghost predicate Chain(members: seq<Member>, chain: seq<Delivery>) {
    Linked(chain, (x, y) => Before(members, x, y))
  }

  /** The GSN of the last cross-group operation before a place, 0 if there is none. */
  function LastCross(items: seq<Item>, place: nat): nat
    requires place <= |items|
  {
    if place == 0 then 0
    else if IsCross(items[place - 1].req) then items[place - 1].req.gsn
    else LastCross(items, place - 1)
  }

  /** Where a delivery stands in the order that all groups share: just after a GSN, and
      then by place. */
  ghost predicate Stands(members: seq<Member>, x: Delivery, gsn: nat, place: nat) {
    match x
    case CrossOp(g) => gsn == g && place == 0
    case LocalOp(gid, i) =>
      place == i + 1 && exists m :: m in members && m.gid == gid && i < |OutputOf(m)| && gsn == LastCross(OutputOf(m), i)
  }

  lemma OutputAscends(fates: Fates, m: Member)
    requires Consistent(fates, m.gid, m.events)
    ensures Ascending(OutputOf(m), 0, PrefixOf(m.events))
  {
    InOrder(fates, m.gid, m.events);
  }

  lemma {:induction false} LastCrossBounds(items: seq<Item>, i: nat, j: nat, high: nat)
    requires i < j <= |items| && Ascending(items, 0, high)
    ensures LastCross(items, i) <= LastCross(items, j)
    ensures IsCross(items[i].req) ==> items[i].req.gsn <= LastCross(items, j)
    ensures forall k :: j <= k < |items| && IsCross(items[k].req) ==> LastCross(items, j) < items[k].req.gsn
    decreases j
  {
    if i + 1 < j {
      LastCrossBounds(items, i, j - 1, high);
    } else if i > 0 {
      LastCrossBounds(items, i - 1, i, high);
    }
  }

  lemma {:induction false} LastCrossPrefix(a: seq<Item>, b: seq<Item>, place: nat)
    requires a <= b && place <= |a|
    ensures LastCross(a, place) == LastCross(b, place)
  {
    if place > 0 {
      LastCrossPrefix(a, b, place - 1);
    }
  }

  /** Replicas of a group agree on where their deliveries stand. */
  lemma StandsOnce(fates: Fates, members: seq<Member>, x: Delivery, gsn1: nat, place1: nat, gsn2: nat, place2: nat)
    requires System(fates, members) && Stands(members, x, gsn1, place1) && Stands(members, x, gsn2, place2)
    ensures gsn1 == gsn2 && place1 == place2
  {
    if x.LocalOp? {
      var m1 :| m1 in members && m1.gid == x.gid && x.place < |OutputOf(m1)| && gsn1 == LastCross(OutputOf(m1), x.place);
      var m2 :| m2 in members && m2.gid == x.gid && x.place < |OutputOf(m2)| && gsn2 == LastCross(OutputOf(m2), x.place);
      if Strip(Decided(m1.events)) <= Strip(Decided(m2.events)) {
        OutputsComparable(fates, x.gid, m1.events, m2.events);
      } else {
        OutputsComparable(fates, x.gid, m2.events, m1.events);
      }
      if OutputOf(m1) <= OutputOf(m2) {
        LastCrossPrefix(OutputOf(m1), OutputOf(m2), x.place);
      } else {
        LastCrossPrefix(OutputOf(m2), OutputOf(m1), x.place);
      }
    }
  }

  ghost predicate Less(gsn1: nat, place1: nat, gsn2: nat, place2: nat) {
    gsn1 < gsn2 || (gsn1 == gsn2 && place1 < place2)
  }

  function GsnAt(items: seq<Item>, i: nat): nat
    requires i < |items|
  {
    if IsCross(items[i].req) then items[i].req.gsn else LastCross(items, i)
  }

  function PlaceAt(items: seq<Item>, i: nat): nat
    requires i < |items|
  {
    if IsCross(items[i].req) then 0 else i + 1
  }

  lemma LaterStandsHigher(items: seq<Item>, i: nat, j: nat, high: nat)
    requires i < j < |items| && Ascending(items, 0, high)
    ensures Less(GsnAt(items, i), PlaceAt(items, i), GsnAt(items, j), PlaceAt(items, j))
  {
    LastCrossBounds(items, i, j, high);
  }

  lemma StandsAt(members: seq<Member>, m: Member, i: nat)
    requires m in members && i < |OutputOf(m)|
    ensures Stands(members, DeliveryAt(m, i), GsnAt(OutputOf(m), i), PlaceAt(OutputOf(m), i))
  {
  }

  /** x stands below y in the shared order. */
  ghost predicate Below(members: seq<Member>, x: Delivery, y: Delivery) {
    exists gsn1: nat, place1: nat, gsn2: nat, place2: nat ::
      Stands(members, x, gsn1, place1) && Stands(members, y, gsn2, place2) && Less(gsn1, place1, gsn2, place2)
  }

  /** Every delivery order is part of the shared one. */
  lemma BeforeIsBelow(fates: Fates, members: seq<Member>, x: Delivery, y: Delivery)
    requires System(fates, members) && Before(members, x, y)
    ensures Below(members, x, y)
  {
    var m, i, j :| m in members && DeliveredBeforeAt(m, i, j, x, y);
    OutputAscends(fates, m);
    LaterStandsHigher(OutputOf(m), i, j, PrefixOf(m.events));
    StandsAt(members, m, i);
    StandsAt(members, m, j);
  }

  lemma BelowTransitive(fates: Fates, members: seq<Member>, x: Delivery, y: Delivery, z: Delivery)
    requires System(fates, members) && Below(members, x, y) && Below(members, y, z)
    ensures Below(members, x, z)
  {
    var g1: nat, p1: nat, g2: nat, p2: nat :| Stands(members, x, g1, p1) && Stands(members, y, g2, p2) && Less(g1, p1, g2, p2);
    var g3: nat, p3: nat, g4: nat, p4: nat :| Stands(members, y, g3, p3) && Stands(members, z, g4, p4) && Less(g3, p3, g4, p4);
    StandsOnce(fates, members, y, g2, p2, g3, p3);
    assert Less(g1, p1, g4, p4);
  }

  lemma NotBelowItself(fates: Fates, members: seq<Member>, x: Delivery)
    requires System(fates, members)
    ensures !Below(members, x, x)
  {
    forall g1: nat, p1: nat, g2: nat, p2: nat | Stands(members, x, g1, p1) && Stands(members, x, g2, p2)
      ensures !Less(g1, p1, g2, p2)
    {
      StandsOnce(fates, members, x, g1, p1, g2, p2);
    }
  }

  lemma ChainClimbs(fates: Fates, members: seq<Member>, chain: seq<Delivery>)
    requires System(fates, members) && Chain(members, chain)
    ensures Below(members, chain[0], chain[|chain| - 1])
  {
    var related := (x, y) => Before(members, x, y);
    var below := (x, y) => Below(members, x, y);
    forall x, y | related(x, y)
      ensures below(x, y)
    {
      BeforeIsBelow(fates, members, x, y);
    }
    forall x, y, z | below(x, y) && below(y, z)
      ensures below(x, z)
    {
      BelowTransitive(fates, members, x, y, z);
    }
    LinksClimb(chain, related, below);
  }

  /** Acyclic order: no chain of "delivered before", through any replicas of any groups,
      comes back to where it started. */
  lemma AcyclicMulticast(fates: Fates, members: seq<Member>, chain: seq<Delivery>)
    requires System(fates, members) && Chain(members, chain)
    ensures chain[0] != chain[|chain| - 1]
  {
    ChainClimbs(fates, members, chain);
    NotBelowItself(fates, members, chain[0]);
  }
}
