/** Quotients and remainders. */
module Division {

  lemma {:induction false} AtLeastOnce(k: int, n: int)
    requires k >= 1 && n >= 1
    ensures k * n >= n
  {
    if k > 1 {
      AtLeastOnce(k - 1, n);
      assert k * n == (k - 1) * n + n;
    }
  }

  lemma SmallMultiple(k: int, n: int)
    requires n > 0 && -n < k * n < n
    ensures k == 0
  {
    if k > 0 {
      AtLeastOnce(k, n);
    } else if k < 0 {
      AtLeastOnce(-k, n);
    }
  }

  lemma Unique(x: int, n: int, q: int, r: int)
    requires n > 0 && x == q * n + r && 0 <= r < n
    ensures x / n == q && x % n == r
  {
    assert (q - x / n) * n == x % n - r by {
      assert (q - x / n) * n == q * n - x / n * n;
    }
    SmallMultiple(q - x / n, n);
  }

  lemma Parts(x: nat, n: int) returns (r: nat, q: nat)
    requires n > 0
    ensures r < n && x == r + q * n
  {
    r, q := x % n, x / n;
  }

  lemma Shift(x: int, n: int, k: int)
    requires n > 0
    ensures (x + k * n) % n == x % n && (x + k * n) / n == x / n + k
  {
    assert x + k * n == (x / n + k) * n + x % n by {
      assert (x / n + k) * n == x / n * n + k * n;
    }
    Unique(x + k * n, n, x / n + k, x % n);
  }

  /** The only index that a shift brings to a given remainder. */
  lemma Slot(i: nat, shift: int, x: int, n: nat)
    requires i < n
    ensures (i + shift) % n == x % n <==> i == (x - shift) % n
  {
    if (i + shift) % n == x % n {
      var k := x / n - (i + shift) / n;
      assert x - shift == i + k * n by {
        assert k * n == x / n * n - (i + shift) / n * n;
      }
      Unique(x - shift, n, k, i);
    }
    if i == (x - shift) % n {
      var k := (x - shift) / n;
      assert i + shift == x + -k * n;
      Shift(x, n, -k);
    }
  }
}

/** The assignment of request buckets to the leaders of an epoch. */
module Buckets {
  import Division

  // ----- sorting the leaders -----

  function Insert(x: int, s: seq<int>): seq<int> {
    if s == [] || x <= s[0] then [x] + s else [s[0]] + Insert(x, s[1..])
  }

  function Sorted(s: seq<int>): seq<int> {
    if s == [] then [] else Insert(s[0], Sorted(s[1..]))
  }

  predicate IsSorted(s: seq<int>) {
    s == [] || ((forall x :: x in s[1..] ==> s[0] <= x) && IsSorted(s[1..]))
  }

  lemma FirstIsLeast(s: seq<int>, x: int)
    requires IsSorted(s) && x in multiset(s)
    ensures s != [] && s[0] <= x
  {
    var i :| 0 <= i < |s| && s[i] == x;
    if i > 0 {
      assert s[1..][i - 1] == x;
      assert x in s[1..];
    }
  }

  lemma TailMultiset(s: seq<int>)
    requires s != []
    ensures multiset(s) == multiset{s[0]} + multiset(s[1..])
  {
    assert s == [s[0]] + s[1..];
  }

  lemma PrependKeeps(x: int, s: seq<int>)
    requires IsSorted(s) && forall y :: y in multiset(s) ==> x <= y
    ensures IsSorted([x] + s) && multiset([x] + s) == multiset(s) + multiset{x}
  {
    assert ([x] + s)[1..] == s;
    assert forall y :: y in s ==> y in multiset(s);
  }

  lemma {:induction false} InsertKeeps(x: int, s: seq<int>)
    requires IsSorted(s)
    ensures IsSorted(Insert(x, s)) && multiset(Insert(x, s)) == multiset(s) + multiset{x}
  {
    if s == [] {
      PrependKeeps(x, s);
    } else if x <= s[0] {
      forall y | y in multiset(s)
        ensures x <= y
      {
        FirstIsLeast(s, y);
      }
      PrependKeeps(x, s);
    } else {
      InsertKeeps(x, s[1..]);
      TailMultiset(s);
      var rest := Insert(x, s[1..]);
      forall y | y in multiset(rest)
        ensures s[0] <= y
      {
        assert y == x || y in multiset(s[1..]);
        FirstIsLeast(s, if y == x then s[0] else y);
      }
      PrependKeeps(s[0], rest);
    }
  }

  lemma {:induction false} SortedKeeps(s: seq<int>)
    ensures IsSorted(Sorted(s)) && multiset(Sorted(s)) == multiset(s) && |Sorted(s)| == |s|
  {
    if s != [] {
      SortedKeeps(s[1..]);
      InsertKeeps(s[0], Sorted(s[1..]));
      assert s == [s[0]] + s[1..];
      assert |multiset(Sorted(s))| == |Sorted(s)| && |multiset(s)| == |s|;
    }
  }

  lemma SameFirst(s: seq<int>, t: seq<int>)
    requires IsSorted(s) && IsSorted(t) && multiset(s) == multiset(t)
    ensures |s| == |t|
    ensures s != [] ==> s[0] == t[0]
  {
    assert |s| == |multiset(s)| == |multiset(t)| == |t|;
    if s != [] {
      assert s[0] in multiset(s) && t[0] in multiset(t);
      FirstIsLeast(t, s[0]);
      FirstIsLeast(s, t[0]);
    }
  }

  lemma {:induction false} SortedUnique(s: seq<int>, t: seq<int>)
    requires IsSorted(s) && IsSorted(t) && multiset(s) == multiset(t)
    ensures s == t
  {
    SameFirst(s, t);
    if s != [] {
      TailMultiset(s);
      TailMultiset(t);
      assert multiset(s[1..]) == multiset(s) - multiset{s[0]};
      assert multiset(t[1..]) == multiset(t) - multiset{s[0]};
      SortedUnique(s[1..], t[1..]);
      assert s == [s[0]] + s[1..] && t == [s[0]] + t[1..];
    }
  }

  function SetOf(s: seq<int>): set<int> {
    set x | x in s
  }

  // ----- the assignment -----

  predicate Distinct(s: seq<int>) {
    s == [] || (s[0] !in s[1..] && Distinct(s[1..]))
  }

  /** Every `step`-th bucket from `first` on. */
  function Strided(first: nat, step: nat, limit: nat): seq<nat>
    requires step > 0
    decreases limit - first
  {
    if first >= limit then [] else [first] + Strided(first + step, step, limit)
  }

  /** The buckets that node number `i` starts with, leader or not. */
  function InitialOf(i: nat, nodes: nat, epoch: nat, buckets: nat): seq<nat>
    requires i < nodes
  {
    Strided((i + epoch) % nodes, nodes, buckets)
  }

  function StartIfIdle(nodes: seq<int>, leaders: seq<int>, epoch: nat, buckets: nat, i: nat): seq<nat>
    requires i < |nodes|
  {
    if nodes[i] in leaders then [] else InitialOf(i, |nodes|, epoch, buckets)
  }

  function IdleStarts(nodes: seq<int>, leaders: seq<int>, epoch: nat, buckets: nat): (starts: seq<seq<nat>>)
    ensures |starts| == |nodes|
    ensures forall i :: 0 <= i < |nodes| ==> starts[i] == StartIfIdle(nodes, leaders, epoch, buckets, i)
  {
    seq(|nodes|, i requires 0 <= i < |nodes| => StartIfIdle(nodes, leaders, epoch, buckets, i))
  }

  function Concat(lists: seq<seq<nat>>): seq<nat> {
    if lists == [] then [] else Concat(lists[..|lists| - 1]) + lists[|lists| - 1]
  }

  /** The buckets of the nodes that do not lead. */
  function Extra(nodes: seq<int>, leaders: seq<int>, epoch: nat, buckets: nat): seq<nat> {
    Concat(IdleStarts(nodes, leaders, epoch, buckets))
  }

  /** Who receives an extra bucket, the leaders being sorted. */
  function Receiver(sorted: seq<int>, epoch: nat, b: nat): int
    requires sorted != []
  {
    sorted[(b + epoch) % |sorted|]
  }

  /** Those of the extra buckets that a leader receives. */
  function Dealt(sorted: seq<int>, epoch: nat, extra: seq<nat>, leader: int): seq<nat>
    requires sorted != []
  {
    if extra == [] then []
    else
      var b := extra[|extra| - 1];
      Dealt(sorted, epoch, extra[..|extra| - 1], leader) + if Receiver(sorted, epoch, b) == leader then [b] else []
  }

  function IndexOf(nodes: seq<int>, node: int): (i: nat)
    requires node in nodes
    ensures i < |nodes| && nodes[i] == node
  {
    if nodes[0] == node then 0 else 1 + IndexOf(nodes[1..], node)
  }

  function StartOf(nodes: seq<int>, epoch: nat, buckets: nat, node: int): seq<nat> {
    if node in nodes then InitialOf(IndexOf(nodes, node), |nodes|, epoch, buckets) else []
  }

  /** All the buckets of a leader. */
  function BucketsOf(nodes: seq<int>, leaders: seq<int>, epoch: nat, buckets: nat, leader: int): seq<nat>
    requires leaders != []
  {
    SortedKeeps(leaders);
    StartOf(nodes, epoch, buckets, leader)
    + Dealt(Sorted(leaders), epoch, Extra(nodes, leaders, epoch, buckets), leader)
  }

  lemma {:induction false} IndexUnique(nodes: seq<int>, i: nat)
    requires Distinct(nodes) && i < |nodes|
    ensures IndexOf(nodes, nodes[i]) == i
  {
    if i > 0 {
      assert nodes[1..][i - 1] == nodes[i];
      IndexUnique(nodes[1..], i - 1);
    }
  }

  lemma DistinctAt(s: seq<int>, i: nat, j: nat)
    requires Distinct(s) && i < |s| && j < |s| && s[i] == s[j]
    ensures i == j
  {
    IndexUnique(s, i);
    IndexUnique(s, j);
  }

  method Stride(first: nat, step: nat, limit: nat) returns (list: seq<nat>)
    requires step > 0
    ensures list == Strided(first, step, limit)
  {
    list := [];
    var b := first;
    while b < limit
      invariant list + Strided(b, step, limit) == Strided(first, step, limit)
      decreases limit - b
    {
      assert list + ([b] + Strided(b + step, step, limit)) == list + [b] + Strided(b + step, step, limit);
      list := list + [b];
      b := b + step;
    }
  }

  /** The round-robin start: one list for each node. */
  method StartBuckets(nodes: seq<int>, epoch: nat, buckets: nat) returns (initial: map<int, seq<nat>>)
    requires Distinct(nodes)
    ensures initial.Keys == SetOf(nodes)
    ensures forall n :: n in initial ==> initial[n] == StartOf(nodes, epoch, buckets, n)
  {
    initial := map[];
    for i := 0 to |nodes|
      invariant initial.Keys == SetOf(nodes[..i])
      invariant forall n :: n in initial ==> initial[n] == StartOf(nodes, epoch, buckets, n)
    {
      var mine := Stride((i + epoch) % |nodes|, |nodes|, buckets);
      IndexUnique(nodes, i);
      initial := initial[nodes[i] := mine];
    }
    assert nodes[..|nodes|] == nodes;
  }

  method CollectExtra(nodes: seq<int>, leaders: seq<int>, epoch: nat, buckets: nat, initial: map<int, seq<nat>>)
    returns (extra: seq<nat>)
    requires Distinct(nodes) && initial.Keys == SetOf(nodes)
    requires forall n :: n in initial ==> initial[n] == StartOf(nodes, epoch, buckets, n)
    ensures extra == Extra(nodes, leaders, epoch, buckets)
  {
    ghost var starts := IdleStarts(nodes, leaders, epoch, buckets);
    extra := [];
    for i := 0 to |nodes|
      invariant extra == Concat(starts[..i])
    {
      assert starts[..i + 1][..i] == starts[..i];
      IndexUnique(nodes, i);
      if nodes[i] !in leaders {
        extra := extra + initial[nodes[i]];
      } else {
        assert extra + [] == extra;
      }
    }
    assert starts[..|nodes|] == starts;
  }

  method CopyInitial(nodes: seq<int>, sorted: seq<int>, epoch: nat, buckets: nat, initial: map<int, seq<nat>>)
    returns (final: map<int, seq<nat>>)
    requires initial.Keys == SetOf(nodes)
    requires forall n :: n in initial ==> initial[n] == StartOf(nodes, epoch, buckets, n)
    ensures final.Keys == SetOf(sorted)
    ensures forall l :: l in final ==> final[l] == StartOf(nodes, epoch, buckets, l)
  {
    final := map[];
    for i := 0 to |sorted|
      invariant final.Keys == SetOf(sorted[..i])
      invariant forall l :: l in final ==> final[l] == StartOf(nodes, epoch, buckets, l)
    {
      var l := sorted[i];
      final := final[l := if l in initial then initial[l] else []];
    }
    assert sorted[..|sorted|] == sorted;
  }

  method DealExtra(sorted: seq<int>, epoch: nat, extra: seq<nat>, start: map<int, seq<nat>>)
    returns (final: map<int, seq<nat>>)
    requires sorted != [] && start.Keys == SetOf(sorted)
    ensures final.Keys == start.Keys
    ensures forall l :: l in final ==> final[l] == start[l] + Dealt(sorted, epoch, extra, l)
  {
    final := start;
    for i := 0 to |extra|
      invariant final.Keys == start.Keys
      invariant forall l :: l in final ==> final[l] == start[l] + Dealt(sorted, epoch, extra[..i], l)
    {
      assert extra[..i + 1][..i] == extra[..i];
      var b := extra[i];
      var l := sorted[(b + epoch) % |sorted|];
      assert final[l] + [b] == start[l] + (Dealt(sorted, epoch, extra[..i], l) + [b]);
      final := final[l := final[l] + [b]];
    }
    assert extra[..|extra|] == extra;
  }

  /** Starts from a round-robin assignment to all nodes and deals the buckets of those that
      do not lead to the leaders. */
  method AssignBuckets(nodes: seq<int>, leaders: seq<int>, epoch: nat, buckets: nat)
    returns (final: map<int, seq<nat>>)
    requires Distinct(nodes) && leaders != []
    ensures final.Keys == SetOf(leaders)
    ensures forall l :: l in leaders ==> final[l] == BucketsOf(nodes, leaders, epoch, buckets, l)
  {
    var sorted := Sorted(leaders);
    SortedKeeps(leaders);
    SameMembers(leaders, sorted);
    var initial := StartBuckets(nodes, epoch, buckets);
    var extra := CollectExtra(nodes, leaders, epoch, buckets, initial);
    final := CopyInitial(nodes, sorted, epoch, buckets, initial);
    final := DealExtra(sorted, epoch, extra, final);
  }

  lemma SameMember(s: seq<int>, t: seq<int>, x: int)
    requires multiset(s) == multiset(t)
    ensures x in s <==> x in t
  {
    assert x in s <==> x in multiset(s);
    assert x in t <==> x in multiset(t);
  }

  lemma SameMembers(s: seq<int>, t: seq<int>)
    requires multiset(s) == multiset(t)
    ensures SetOf(s) == SetOf(t)
  {
    forall x
      ensures x in SetOf(s) <==> x in SetOf(t)
    {
      SameMember(s, t, x);
    }
  }

  // ----- every bucket has one leader -----

  /** The leader of a bucket: the node it starts with if that one leads, else the receiver. */
  function Owner(nodes: seq<int>, leaders: seq<int>, epoch: nat, b: nat): int
    requires nodes != [] && leaders != []
  {
    SortedKeeps(leaders);
    var first := nodes[(b - epoch) % |nodes|];
    if first in leaders then first else Receiver(Sorted(leaders), epoch, b)
  }

  function Count(s: seq<nat>, b: nat): nat {
    multiset(s)[b]
  }

  predicate Hits(first: nat, step: nat, b: nat)
    requires step > 0
  {
    first <= b && (b - first) % step == 0
  }

  lemma HitsLater(first: nat, step: nat, b: nat)
    requires step > 0
    ensures Hits(first, step, b) <==> b == first || Hits(first + step, step, b)
  {
    if first + step <= b {
      Division.Shift(b - first - step, step, 1);
    } else if first < b {
      Division.Unique(b - first, step, 0, b - first);
    }
  }

  lemma {:induction false} StridedCount(first: nat, step: nat, limit: nat, b: nat)
    requires step > 0
    ensures Count(Strided(first, step, limit), b) == if b < limit && Hits(first, step, b) then 1 else 0
    decreases limit - first
  {
    if first < limit {
      StridedCount(first + step, step, limit, b);
      HitsLater(first, step, b);
    }
  }

  lemma HitsByRemainder(first: nat, step: nat, b: nat)
    requires first < step
    ensures Hits(first, step, b) <==> b % step == first
  {
    if b % step == first {
      Division.Unique(b - first, step, b / step, 0);
    }
    if Hits(first, step, b) {
      Division.Unique(b, step, (b - first) / step, first);
    }
  }

  /** The one node whose stride passes a bucket. */
  lemma HitsOnce(i: nat, nodes: nat, epoch: nat, b: nat)
    requires i < nodes
    ensures Hits((i + epoch) % nodes, nodes, b) <==> i == (b - epoch) % nodes
  {
    Division.Slot(i, epoch, b, nodes);
    HitsByRemainder((i + epoch) % nodes, nodes, b);
  }

  lemma InitialCount(i: nat, nodes: nat, epoch: nat, buckets: nat, b: nat, slot: nat)
    requires i < nodes && slot == (b - epoch) % nodes
    ensures Count(InitialOf(i, nodes, epoch, buckets), b) == if b < buckets && i == slot then 1 else 0
  {
    StridedCount((i + epoch) % nodes, nodes, buckets, b);
    HitsOnce(i, nodes, epoch, b);
  }

  lemma CountConcat(s: seq<nat>, t: seq<nat>, b: nat)
    ensures Count(s + t, b) == Count(s, b) + Count(t, b)
  {
  }

  lemma IdleCount(nodes: seq<int>, leaders: seq<int>, epoch: nat, buckets: nat, i: nat, b: nat, slot: nat)
    requires i < |nodes| && slot == (b - epoch) % |nodes|
    ensures Count(StartIfIdle(nodes, leaders, epoch, buckets, i), b)
            == if b < buckets && i == slot && nodes[i] !in leaders then 1 else 0
  {
    InitialCount(i, |nodes|, epoch, buckets, b, slot);
  }

  lemma {:induction false} ConcatCount(lists: seq<seq<nat>>, b: nat, slot: nat, count: nat)
    requires forall i :: 0 <= i < |lists| ==> Count(lists[i], b) == if i == slot then count else 0
    ensures Count(Concat(lists), b) == if slot < |lists| then count else 0
  {
    if lists != [] {
      var before, last := lists[..|lists| - 1], lists[|lists| - 1];
      ConcatCount(before, b, slot, count);
      CountConcat(Concat(before), last, b);
    }
  }

  lemma ExtraCount(nodes: seq<int>, leaders: seq<int>, epoch: nat, buckets: nat, b: nat, slot: nat)
    requires nodes != [] && slot == (b - epoch) % |nodes|
    ensures Count(Extra(nodes, leaders, epoch, buckets), b) == if b < buckets && nodes[slot] !in leaders then 1 else 0
  {
    var starts := IdleStarts(nodes, leaders, epoch, buckets);
    var count := if b < buckets && nodes[slot] !in leaders then 1 else 0;
    forall i | 0 <= i < |starts|
      ensures Count(starts[i], b) == if i == slot then count else 0
    {
      IdleCount(nodes, leaders, epoch, buckets, i, b, slot);
    }
    ConcatCount(starts, b, slot, count);
  }

  lemma {:induction false} DealtCount(sorted: seq<int>, epoch: nat, extra: seq<nat>, leader: int, b: nat)
    requires sorted != []
    ensures Count(Dealt(sorted, epoch, extra, leader), b)
            == if Receiver(sorted, epoch, b) == leader then Count(extra, b) else 0
  {
    if extra != [] {
      var before, last := extra[..|extra| - 1], extra[|extra| - 1];
      DealtCount(sorted, epoch, before, leader, b);
      assert extra == before + [last];
      CountConcat(before, [last], b);
      CountConcat(Dealt(sorted, epoch, before, leader), if Receiver(sorted, epoch, last) == leader then [last] else [], b);
    }
  }

  lemma OwnerLeads(nodes: seq<int>, leaders: seq<int>, epoch: nat, b: nat)
    requires nodes != [] && leaders != []
    ensures Owner(nodes, leaders, epoch, b) in leaders
  {
    SortedKeeps(leaders);
    SameMember(leaders, Sorted(leaders), Receiver(Sorted(leaders), epoch, b));
  }

  /** A leader starts with a bucket exactly when the bucket's slot is its own. */
  lemma StartCount(nodes: seq<int>, epoch: nat, buckets: nat, leader: int, b: nat, slot: nat)
    requires nodes != [] && Distinct(nodes) && slot == (b - epoch) % |nodes|
    ensures Count(StartOf(nodes, epoch, buckets, leader), b) == if b < buckets && nodes[slot] == leader then 1 else 0
  {
    if leader in nodes {
      InitialCount(IndexOf(nodes, leader), |nodes|, epoch, buckets, b, slot);
      IndexUnique(nodes, slot);
    }
  }

  /** Partition. In every epoch, for every non-empty list of leaders, each bucket is held
      exactly once, by exactly one leader, and nothing but the buckets is held. */
  lemma BucketPartition(nodes: seq<int>, leaders: seq<int>, epoch: nat, buckets: nat, b: nat, leader: int)
    requires nodes != [] && Distinct(nodes) && leaders != [] && leader in leaders
    ensures Owner(nodes, leaders, epoch, b) in leaders
    ensures Count(BucketsOf(nodes, leaders, epoch, buckets, leader), b)
            == if b < buckets && leader == Owner(nodes, leaders, epoch, b) then 1 else 0
  {
    OwnerLeads(nodes, leaders, epoch, b);
    SortedKeeps(leaders);
    var sorted, extra := Sorted(leaders), Extra(nodes, leaders, epoch, buckets);
    var slot := (b - epoch) % |nodes|;
    StartCount(nodes, epoch, buckets, leader, b, slot);
    ExtraCount(nodes, leaders, epoch, buckets, b, slot);
    DealtCount(sorted, epoch, extra, leader, b);
    CountConcat(StartOf(nodes, epoch, buckets, leader), Dealt(sorted, epoch, extra, leader), b);
  }

  // ----- who receives what a node that does not lead would have had -----

  /** The leaders with smaller numbers. */
  function Smaller(leaders: seq<int>, l: int): set<int> {
    set x | x in leaders && x < l
  }

  ghost predicate EachOnce(m: multiset<int>) {
    forall x :: x in m ==> m[x] == 1
  }

  lemma {:induction false} DistinctByCount(s: seq<int>)
    ensures Distinct(s) <==> EachOnce(multiset(s))
  {
    if s == [] {
      assert multiset(s) == multiset{};
    } else {
      DistinctByCount(s[1..]);
      TailMultiset(s);
      OnceMore(s[0], multiset(s[1..]), multiset(s));
      assert s[0] in s[1..] <==> s[0] in multiset(s[1..]);
    }
  }

  lemma OnceMore(x: int, rest: multiset<int>, all: multiset<int>)
    requires all == multiset{x} + rest
    ensures EachOnce(all) <==> x !in rest && EachOnce(rest)
  {
    assert all[x] == 1 + rest[x];
    assert forall y :: y != x ==> all[y] == rest[y];
  }

  /** In a sorted list a member's place is the number of smaller members. */
  lemma {:induction false} PlaceIsRank(sorted: seq<int>, k: nat)
    requires IsSorted(sorted) && Distinct(sorted) && k < |sorted|
    ensures |Smaller(sorted, sorted[k])| == k
  {
    if k == 0 {
      assert forall x :: x in sorted ==> x == sorted[0] || x in sorted[1..];
      assert Smaller(sorted, sorted[0]) == {};
    } else {
      PlaceIsRank(sorted[1..], k - 1);
      assert sorted[k] == sorted[1..][k - 1] && sorted[k] in sorted[1..];
      assert forall x :: x in sorted <==> x == sorted[0] || x in sorted[1..];
      assert Smaller(sorted, sorted[k]) == {sorted[0]} + Smaller(sorted[1..], sorted[k]);
    }
  }

  /** A bucket stays with the node whose turn it is in the epoch if that one leads. Otherwise it
      goes to the leader that has just (b + epoch) mod the number of leaders below it. */
  lemma OwnerByRank(nodes: seq<int>, leaders: seq<int>, epoch: nat, b: nat, turn: nat, l: int)
    requires turn < |nodes| && (turn + epoch) % |nodes| == b % |nodes|
    requires leaders != [] && Distinct(leaders) && l in leaders
    ensures nodes[turn] in leaders ==> Owner(nodes, leaders, epoch, b) == nodes[turn]
    ensures nodes[turn] !in leaders ==>
      (Owner(nodes, leaders, epoch, b) == l <==> |Smaller(leaders, l)| == (b + epoch) % |leaders|)
  {
    Division.Slot(turn, epoch, b, |nodes|);
    RankInSorted(leaders, l, (b + epoch) % |leaders|);
  }

  lemma RankInSorted(leaders: seq<int>, l: int, m: nat)
    requires Distinct(leaders) && l in leaders && m < |leaders|
    ensures |Sorted(leaders)| == |leaders| && (Sorted(leaders)[m] == l <==> |Smaller(leaders, l)| == m)
  {
    var sorted := Sorted(leaders);
    SortedKeeps(leaders);
    DistinctByCount(leaders);
    DistinctByCount(sorted);
    SameMember(leaders, sorted, l);
    var k :| 0 <= k < |sorted| && sorted[k] == l;
    PlaceIsRank(sorted, k);
    SameMembers(leaders, sorted);
    assert Smaller(leaders, l) == Smaller(sorted, l) by {
      assert forall x :: x in leaders <==> x in SetOf(leaders);
      assert forall x :: x in sorted <==> x in SetOf(sorted);
    }
    if sorted[m] == l {
      DistinctAt(sorted, m, k);
    }
  }

  /** The assignment does not depend on the order in which the leaders are listed. */
  lemma LeaderOrderIrrelevant(nodes: seq<int>, leaders: seq<int>, leaders': seq<int>, epoch: nat, buckets: nat, leader: int)
    requires leaders != [] && multiset(leaders) == multiset(leaders')
    ensures leaders' != []
    ensures BucketsOf(nodes, leaders, epoch, buckets, leader) == BucketsOf(nodes, leaders', epoch, buckets, leader)
  {
    assert |leaders| == |multiset(leaders)| == |multiset(leaders')| == |leaders'|;
    SortedKeeps(leaders);
    SortedKeeps(leaders');
    SortedUnique(Sorted(leaders), Sorted(leaders'));
    SameExtra(nodes, leaders, leaders', epoch, buckets);
  }

  lemma SameExtra(nodes: seq<int>, leaders: seq<int>, leaders': seq<int>, epoch: nat, buckets: nat)
    requires multiset(leaders) == multiset(leaders')
    ensures Extra(nodes, leaders, epoch, buckets) == Extra(nodes, leaders', epoch, buckets)
  {
    var starts, starts' := IdleStarts(nodes, leaders, epoch, buckets), IdleStarts(nodes, leaders', epoch, buckets);
    forall i | 0 <= i < |nodes|
      ensures starts[i] == starts'[i]
    {
      SameMember(leaders, leaders', nodes[i]);
    }
    assert starts == starts';
  }
}
