/** Who may lead an epoch: suspected nodes are banned for a while (backoff), the latest few
    of them are banned (blacklist), or only nodes banned by both are (combined). */
module LeaderPolicies {
  import opened Quorums
  import opened Buckets

  type Int32 = n: int | -0x8000_0000 <= n < 0x8000_0000

  /** Epochs count up from 0 in 32 bits. */
  type Epoch = e: int | 0 <= e < 0x8000_0000

  function Wrap32(n: int): Int32 {
    (n + 0x8000_0000) % 0x1_0000_0000 - 0x8000_0000
  }

  function Twice(n: Int32): Int32 {
    var m: int := n;
    Wrap32(m * 2)
  }

  function Less(n: Int32): Int32 {
    if n == -0x8000_0000 then 0x7fff_ffff else n - 1
  }

  /** The epoch after `e`, which wraps around after the last one. */
  function Later(e: Epoch): Int32 {
    if e == 0x7fff_ffff then -0x8000_0000 else e + 1
  }

  // ----- backoff -----

  /** The ban period of each suspected node, and the epoch until which it is banned. */
  datatype Bans = Bans(ban: map<int, Int32>, until: map<int, Int32>)

  predicate Eligible(until: map<int, Int32>, e: int, id: int) {
    id !in until || until[id] < e
  }

  function Leaders(nodes: seq<int>, until: map<int, Int32>, e: int): seq<int> {
    if nodes == [] then []
    else
      Leaders(nodes[..|nodes| - 1], until, e) +
      if Eligible(until, e, nodes[|nodes| - 1]) then [nodes[|nodes| - 1]] else []
  }

  lemma {:induction false} LeadsIff(nodes: seq<int>, until: map<int, Int32>, e: int, id: int)
    ensures id in Leaders(nodes, until, e) <==> id in nodes && Eligible(until, e, id)
  {
    if nodes != [] {
      LeadsIff(nodes[..|nodes| - 1], until, e, id);
      assert nodes == nodes[..|nodes| - 1] + [nodes[|nodes| - 1]];
    }
  }

  function Shorten(until: map<int, Int32>): (r: map<int, Int32>)
    ensures r.Keys == until.Keys && forall id :: id in until ==> r[id] == Less(until[id])
  {
    map id | id in until :: Less(until[id])
  }

  /** How much longer the first node is banned. */
  function Wait(nodes: seq<int>, until: map<int, Int32>, e: int): nat {
    if nodes != [] && nodes[0] in until && until[nodes[0]] > e then until[nodes[0]] - e else 0
  }

  lemma NobodyLeads(nodes: seq<int>, until: map<int, Int32>, e: int)
    requires nodes != [] && Leaders(nodes, until, e + 1) == []
    ensures nodes[0] in until && until[nodes[0]] > e
  {
    LeadsIff(nodes, until, e + 1, nodes[0]);
  }

  lemma ShortenedWait(nodes: seq<int>, until: map<int, Int32>, e: Epoch)
    requires nodes != [] && Leaders(nodes, until, e + 1) == []
    ensures Wait(nodes, Shorten(until), e) < Wait(nodes, until, e)
  {
    NobodyLeads(nodes, until, e);
  }

  /** Whether shortening the bans comes to an end: not when the next epoch wraps around to a
      number that no ban is below, and every node has been suspected. */
  predicate Relaxes(nodes: seq<int>, until: map<int, Int32>, e: Epoch) {
    (nodes != [] && e < 0x7fff_ffff) || Leaders(nodes, until, Later(e)) != []
  }

  /** Shortens all bans alike until some node can lead the epoch after `e`. */
  function Relaxed(nodes: seq<int>, until: map<int, Int32>, e: Epoch): (r: map<int, Int32>)
    requires Relaxes(nodes, until, e)
    ensures Leaders(nodes, r, Later(e)) != []
    decreases Wait(nodes, until, e)
  {
    if Leaders(nodes, until, Later(e)) != [] then until
    else
      ShortenedWait(nodes, until, e);
      Relaxed(nodes, Shorten(until), e)
  }

  lemma ShortenedOnce(nodes: seq<int>, until: map<int, Int32>, e: Epoch)
    requires Relaxes(nodes, until, e) && Leaders(nodes, until, Later(e)) == []
    ensures Relaxes(nodes, Shorten(until), e)
    ensures Relaxed(nodes, until, e) == Relaxed(nodes, Shorten(until), e)
    ensures Wait(nodes, Shorten(until), e) < Wait(nodes, until, e)
  {
    ShortenedWait(nodes, until, e);
  }

  /** The bans shortened `k` times. */
  function ShortenedBy(until: map<int, Int32>, k: nat): map<int, Int32> {
    if k == 0 then until else Shorten(ShortenedBy(until, k - 1))
  }

  /** The loop ends exactly when it is said to: otherwise no number of rounds finds a leader. */
  lemma RelaxesExactly(nodes: seq<int>, until: map<int, Int32>, e: Epoch)
    ensures Relaxes(nodes, until, e) <==> exists k: nat :: Leaders(nodes, ShortenedBy(until, k), Later(e)) != []
  {
    if Relaxes(nodes, until, e) {
      var k := RelaxingRounds(nodes, until, e, until, 0);
    }
    forall k: nat | Leaders(nodes, ShortenedBy(until, k), Later(e)) != []
      ensures Relaxes(nodes, until, e)
    {
      LastEpochStays(nodes, until, e, k);
    }
  }

  lemma {:induction false} RelaxingRounds(nodes: seq<int>, until: map<int, Int32>, e: Epoch, now: map<int, Int32>, done: nat)
    returns (k: nat)
    requires Relaxes(nodes, now, e) && now == ShortenedBy(until, done)
    ensures Leaders(nodes, ShortenedBy(until, k), Later(e)) != []
    decreases Wait(nodes, now, e)
  {
    if Leaders(nodes, now, Later(e)) != [] {
      k := done;
    } else {
      ShortenedOnce(nodes, now, e);
      k := RelaxingRounds(nodes, until, e, Shorten(now), done + 1);
    }
  }

  lemma {:induction false} SameSuspects(until: map<int, Int32>, k: nat)
    ensures ShortenedBy(until, k).Keys == until.Keys
  {
    if k > 0 {
      SameSuspects(until, k - 1);
    }
  }

  lemma LastEpochStays(nodes: seq<int>, until: map<int, Int32>, e: Epoch, k: nat)
    requires Leaders(nodes, ShortenedBy(until, k), Later(e)) != []
    ensures Relaxes(nodes, until, e)
  {
    var id := Leaders(nodes, ShortenedBy(until, k), Later(e))[0];
    LeadsIff(nodes, ShortenedBy(until, k), Later(e), id);
    LeadsIff(nodes, until, Later(e), id);
    SameSuspects(until, k);
  }

  /** The period is doubled each time, in 32-bit arithmetic. */
  function Suspected(s: Bans, e: int, suspect: int, defaultBan: Int32): Bans {
    var ban := if suspect in s.ban then Twice(s.ban[suspect]) else defaultBan;
    Bans(s.ban[suspect := ban], s.until[suspect := Wrap32(e + ban)])
  }

  function Backoff(nodes: seq<int>, s: Bans, e: Epoch, suspect: int, defaultBan: Int32): Bans
    requires Relaxes(nodes, Suspected(s, e, suspect, defaultBan).until, e)
  {
    var s1 := Suspected(s, e, suspect, defaultBan);
    s1.(until := Relaxed(nodes, s1.until, e))
  }

  class BackoffPolicy {
    const nodes: seq<int>
    const defaultBan: Int32
    var ban: map<int, Int32>
    var until: map<int, Int32>

    function State(): Bans
      reads this
    {
      Bans(ban, until)
    }

    constructor (nodes: seq<int>, defaultBan: Int32)
      ensures this.nodes == nodes && this.defaultBan == defaultBan && State() == Bans(map[], map[])
    {
      this.nodes, this.defaultBan := nodes, defaultBan;
      ban, until := map[], map[];
    }

    method GetLeaders(e: int) returns (leaders: seq<int>)
      ensures leaders == Leaders(nodes, until, e)
    {
      leaders := [];
      for i := 0 to |nodes|
        invariant leaders == Leaders(nodes[..i], until, e)
      {
        assert nodes[..i + 1][..i] == nodes[..i];
        if nodes[i] !in until || until[nodes[i]] < e {
          leaders := leaders + [nodes[i]];
        }
      }
      assert nodes[..|nodes|] == nodes;
    }

    method ShortenAll()
      modifies this`until
      ensures until == Shorten(old(until))
    {
      var rest := until.Keys;
      while rest != {}
        invariant until.Keys == old(until).Keys && rest <= until.Keys
        invariant forall id :: id in until ==> until[id] == if id in rest then old(until)[id] else Shorten(old(until))[id]
      {
        NotEmpty(rest);
        var id :| id in rest;
        until := until[id := Less(until[id])];
        rest := rest - {id};
      }
      assert forall id :: id in until ==> until[id] == Shorten(old(until))[id];
    }

    /** Decreases everybody's bans until the next epoch has a leader. */
    method Relax(e: Epoch)
      requires Relaxes(nodes, until, e)
      modifies this`until
      ensures until == Relaxed(nodes, old(until), e)
    {
      var leaders := GetLeaders(Later(e));
      while leaders == []
        invariant leaders == Leaders(nodes, until, Later(e))
        invariant Relaxes(nodes, until, e) && Relaxed(nodes, until, e) == Relaxed(nodes, old(until), e)
        decreases Wait(nodes, until, e)
      {
        ShortenedOnce(nodes, until, e);
        ShortenAll();
        leaders := GetLeaders(Later(e));
      }
    }

    method Update(e: Epoch, suspect: int)
      requires Relaxes(nodes, Suspected(State(), e, suspect, defaultBan).until, e)
      modifies this
      ensures State() == Backoff(nodes, old(State()), e, suspect, defaultBan)
    {
      if suspect !in ban {
        ban := ban[suspect := defaultBan];
      } else {
        ban := ban[suspect := Twice(ban[suspect])];
      }
      until := until[suspect := Wrap32(e + ban[suspect])];
      assert State() == Suspected(old(State()), e, suspect, defaultBan);
      Relax(e);
    }
  }

  // ----- blacklist -----

  /** Only the latest `faults` suspects stay on the list, repetitions included. */
  function Blacklist(list: seq<int>, faults: nat, suspect: int): seq<int> {
    var all := list + [suspect];
    if |all| > faults then all[|all| - faults..] else all
  }

  function Allowed(nodes: seq<int>, banned: set<int>): seq<int> {
    if nodes == [] then []
    else
      Allowed(nodes[..|nodes| - 1], banned) + if nodes[|nodes| - 1] in banned then [] else [nodes[|nodes| - 1]]
  }

  lemma AllowedOneMore(nodes: seq<int>, i: nat, banned: set<int>)
    requires i < |nodes|
    ensures Allowed(nodes[..i + 1], banned) == Allowed(nodes[..i], banned) + if nodes[i] in banned then [] else [nodes[i]]
  {
    assert nodes[..i + 1][..i] == nodes[..i];
  }

  class BlacklistPolicy {
    const nodes: seq<int>
    var bannedList: seq<int>
    var bannedMap: set<int>

    predicate Valid()
      reads this
    {
      bannedMap == SetOf(bannedList)
    }

    constructor (nodes: seq<int>)
      ensures Valid() && this.nodes == nodes && bannedList == []
    {
      this.nodes := nodes;
      bannedList, bannedMap := [], {};
    }

    method Update(e: int, suspect: int)
      requires Valid()
      modifies this
      ensures Valid() && bannedList == Blacklist(old(bannedList), Faults(|nodes|), suspect)
    {
      bannedList := bannedList + [suspect];
      if |bannedList| > Faults(|nodes|) {
        bannedList := bannedList[|bannedList| - Faults(|nodes|)..];
      }
      bannedMap := {};
      for i := 0 to |bannedList|
        invariant bannedList == Blacklist(old(bannedList), Faults(|nodes|), suspect)
        invariant bannedMap == SetOf(bannedList[..i])
      {
        assert bannedList[..i + 1] == bannedList[..i] + [bannedList[i]];
        bannedMap := bannedMap + {bannedList[i]};
      }
      assert bannedList[..|bannedList|] == bannedList;
    }

    method GetLeaders(e: int) returns (leaders: seq<int>)
      requires Valid()
      ensures leaders == Allowed(nodes, SetOf(bannedList))
    {
      leaders := [];
      for i := 0 to |nodes|
        invariant leaders == Allowed(nodes[..i], SetOf(bannedList))
      {
        assert leaders + [] == leaders;
        AllowedOneMore(nodes, i, SetOf(bannedList));
        if nodes[i] !in bannedMap {
          leaders := leaders + [nodes[i]];
        }
      }
      assert nodes[..|nodes|] == nodes;
    }
  }

  // ----- combined -----

  /** The nodes that at least one of the two policies offers. */
  function Combined(nodes: seq<int>, until: map<int, Int32>, list: seq<int>, e: int): set<int> {
    SetOf(Leaders(nodes, until, e)) + SetOf(Allowed(nodes, SetOf(list)))
  }

  class CombinedPolicy {
    const backoff: BackoffPolicy
    const blacklist: BlacklistPolicy

    constructor (nodes: seq<int>, defaultBan: Int32)
      ensures fresh(backoff) && fresh(blacklist) && blacklist.Valid()
      ensures backoff.nodes == nodes && blacklist.nodes == nodes && backoff.defaultBan == defaultBan
      ensures backoff.State() == Bans(map[], map[]) && blacklist.bannedList == []
    {
      backoff := new BackoffPolicy(nodes, defaultBan);
      blacklist := new BlacklistPolicy(nodes);
    }

    method Update(e: Epoch, suspect: int)
      requires blacklist.Valid()
      requires Relaxes(backoff.nodes, Suspected(backoff.State(), e, suspect, backoff.defaultBan).until, e)
      modifies backoff, blacklist
      ensures backoff.State() == Backoff(backoff.nodes, old(backoff.State()), e, suspect, backoff.defaultBan)
      ensures blacklist.Valid()
      ensures blacklist.bannedList == Blacklist(old(blacklist.bannedList), Faults(|blacklist.nodes|), suspect)
    {
      backoff.Update(e, suspect);
      blacklist.Update(e, suspect);
    }

    /** The leaders in any order, each of them once. */
    method GetLeaders(e: int) returns (leaders: seq<int>)
      requires blacklist.Valid() && backoff.nodes == blacklist.nodes
      ensures Distinct(leaders)
      ensures SetOf(leaders) == Combined(backoff.nodes, backoff.until, blacklist.bannedList, e)
    {
      var rest: set<int> := {};
      var first := backoff.GetLeaders(e);
      rest := Collect(rest, first);
      var second := blacklist.GetLeaders(e);
      rest := Collect(rest, second);
      leaders := [];
      while rest != {}
        invariant Distinct(leaders) && SetOf(leaders) !! rest
        invariant SetOf(leaders) + rest == Combined(backoff.nodes, backoff.until, blacklist.bannedList, e)
      {
        NotEmpty(rest);
        var l :| l in rest;
        rest := rest - {l};
        leaders := [l] + leaders;
        assert leaders[1..] == leaders[1..];
      }
    }
  }

  method Collect(into: set<int>, list: seq<int>) returns (all: set<int>)
    ensures all == into + SetOf(list)
  {
    all := into;
    for i := 0 to |list|
      invariant all == into + SetOf(list[..i])
    {
      all := all + {list[i]};
    }
    assert list[..|list|] == list;
  }

  // ----- every run of suspicions -----

  /** A node is suspected in an epoch. */
  datatype Suspicion = Suspicion(epoch: Epoch, suspect: int)

  predicate InTime(run: seq<Suspicion>) {
    forall i :: 0 <= i < |run| ==> run[i].epoch < 0x7fff_ffff
  }

  function BansAfter(nodes: seq<int>, defaultBan: Int32, run: seq<Suspicion>): Bans
    requires nodes != [] && InTime(run)
  {
    if run == [] then Bans(map[], map[])
    else
      var last := run[|run| - 1];
      Backoff(nodes, BansAfter(nodes, defaultBan, run[..|run| - 1]), last.epoch, last.suspect, defaultBan)
  }

  function ListAfter(faults: nat, run: seq<Suspicion>): seq<int> {
    if run == [] then [] else Blacklist(ListAfter(faults, run[..|run| - 1]), faults, run[|run| - 1].suspect)
  }

  /** After any run of suspicions, whatever wrapped around, every epoch after the one of the
      last suspicion has a leader. */
  lemma NextEpochHasLeader(nodes: seq<int>, defaultBan: Int32, run: seq<Suspicion>, e: int)
    requires nodes != [] && InTime(run)
    requires run != [] ==> e > run[|run| - 1].epoch
    ensures Leaders(nodes, BansAfter(nodes, defaultBan, run).until, e) != []
  {
    var until := BansAfter(nodes, defaultBan, run).until;
    if run == [] {
      LeadsIff(nodes, until, e, nodes[0]);
    } else {
      var first := run[|run| - 1].epoch + 1;
      var id := Leaders(nodes, until, first)[0];
      LeadsIff(nodes, until, first, id);
      LeadsIff(nodes, until, e, id);
    }
  }

  lemma EarlierByOne(until: map<int, Int32>, e: int, id: int)
    requires id in until && until[id] > -0x8000_0000
    ensures Eligible(Shorten(until), e, id) <==> Eligible(until, e + 1, id)
  {
  }

  lemma {:induction false} ShorteningShifts(nodes: seq<int>, until: map<int, Int32>, e: int)
    requires forall i :: 0 <= i < |nodes| ==> nodes[i] in until && until[nodes[i]] > -0x8000_0000
    ensures Leaders(nodes, Shorten(until), e) == Leaders(nodes, until, e + 1)
  {
    if nodes != [] {
      ShorteningShifts(nodes[..|nodes| - 1], until, e);
      EarlierByOne(until, e, nodes[|nodes| - 1]);
    }
  }

  lemma NobodyLeadsAtAll(nodes: seq<int>, until: map<int, Int32>, e: Epoch)
    requires Leaders(nodes, until, e + 1) == []
    ensures forall i :: 0 <= i < |nodes| ==> nodes[i] in until && until[nodes[i]] > e
  {
    forall i | 0 <= i < |nodes|
      ensures nodes[i] in until && until[nodes[i]] > e
    {
      LeadsIff(nodes, until, e + 1, nodes[i]);
    }
  }

  ghost predicate Leaderless(nodes: seq<int>, until: map<int, Int32>, from: int, to: int) {
    forall e :: from <= e < to ==> Leaders(nodes, until, e) == []
  }

  lemma LeaderlessShifts(nodes: seq<int>, until: map<int, Int32>, from: int, to: int)
    requires forall i :: 0 <= i < |nodes| ==> nodes[i] in until && until[nodes[i]] > -0x8000_0000
    requires Leaderless(nodes, Shorten(until), from, to) && Leaders(nodes, until, from) == []
    ensures Leaderless(nodes, until, from, to + 1)
  {
    forall e | from < e < to + 1
      ensures Leaders(nodes, until, e) == []
    {
      ShorteningShifts(nodes, until, e - 1);
      assert Leaders(nodes, Shorten(until), e - 1) == [];
    }
  }

  /** Relaxing the bans amounts to skipping the epochs that would have no leaders: the next
      epoch gets the leaders of the first later epoch that has any. */
  lemma {:induction false} RelaxingSkipsEpochs(nodes: seq<int>, until: map<int, Int32>, e: Epoch) returns (next: int)
    requires nodes != [] && e < 0x7fff_ffff
    ensures Leaders(nodes, Relaxed(nodes, until, e), e + 1) == Leaders(nodes, until, next) != []
    ensures next > e && Leaderless(nodes, until, e + 1, next)
    decreases Wait(nodes, until, e)
  {
    if Leaders(nodes, until, e + 1) != [] {
      next := e + 1;
    } else {
      ShortenedOnce(nodes, until, e);
      NobodyLeadsAtAll(nodes, until, e);
      var earlier := RelaxingSkipsEpochs(nodes, Shorten(until), e);
      next := earlier + 1;
      ShorteningShifts(nodes, until, earlier);
      LeaderlessShifts(nodes, until, e + 1, earlier);
    }
  }

  lemma {:induction false} DistinctAppend(s: seq<int>, x: int)
    ensures Distinct(s + [x]) <==> Distinct(s) && x !in s
  {
    if s != [] {
      DistinctAppend(s[1..], x);
      assert (s + [x])[1..] == s[1..] + [x];
      assert s == [s[0]] + s[1..];
    }
  }

  /** No node is offered twice, so the leaders of an epoch are fit for cutting it into segments. */
  lemma {:induction false} LeadersDistinct(nodes: seq<int>, until: map<int, Int32>, banned: set<int>, e: int)
    requires Distinct(nodes)
    ensures Distinct(Leaders(nodes, until, e)) && Distinct(Allowed(nodes, banned))
  {
    if nodes != [] {
      var before, last := nodes[..|nodes| - 1], nodes[|nodes| - 1];
      assert nodes == before + [last];
      DistinctAppend(before, last);
      LeadersDistinct(before, until, banned, e);
      LeadsIff(before, until, e, last);
      AllowedIff(before, banned, last);
      DistinctAppend(Leaders(before, until, e), last);
      DistinctAppend(Allowed(before, banned), last);
      assert Leaders(before, until, e) + [] == Leaders(before, until, e);
      assert Allowed(before, banned) + [] == Allowed(before, banned);
    }
  }

  function SuspectsOf(run: seq<Suspicion>): (s: seq<int>)
    ensures |s| == |run| && forall i :: 0 <= i < |run| ==> s[i] == run[i].suspect
  {
    seq(|run|, i requires 0 <= i < |run| => run[i].suspect)
  }

  function Latest(s: seq<int>, n: nat): seq<int> {
    s[if |s| > n then |s| - n else 0..]
  }

  lemma LatestOfMore(s: seq<int>, n: nat, x: int)
    ensures Blacklist(Latest(s, n), n, x) == Latest(s + [x], n)
  {
    if |s| >= n {
      assert Latest(s, n) + [x] == (s + [x])[|s| - n..];
    } else {
      assert Latest(s, n) == s && Latest(s + [x], n) == s + [x];
    }
  }

  /** The blacklist holds the last f suspects of the run. */
  lemma {:induction false} BlacklistIsLatest(faults: nat, run: seq<Suspicion>)
    ensures ListAfter(faults, run) == Latest(SuspectsOf(run), faults)
  {
    if run != [] {
      var before := run[..|run| - 1];
      BlacklistIsLatest(faults, before);
      LatestOfMore(SuspectsOf(before), faults, run[|run| - 1].suspect);
      assert SuspectsOf(run) == SuspectsOf(before) + [run[|run| - 1].suspect];
    }
  }

  lemma {:induction false} SetOfSize(s: seq<int>)
    ensures |SetOf(s)| <= |s|
  {
    if s != [] {
      SetOfSize(s[1..]);
      assert SetOf(s) == SetOf(s[1..]) + {s[0]};
    }
  }

  lemma {:induction false} DistinctSize(s: seq<int>)
    requires Distinct(s)
    ensures |SetOf(s)| == |s|
  {
    if s != [] {
      DistinctSize(s[1..]);
      assert SetOf(s) == SetOf(s[1..]) + {s[0]};
    }
  }

  lemma {:induction false} AllowedIff(nodes: seq<int>, banned: set<int>, id: int)
    ensures id in Allowed(nodes, banned) <==> id in nodes && id !in banned
  {
    if nodes != [] {
      AllowedIff(nodes[..|nodes| - 1], banned, id);
      assert nodes == nodes[..|nodes| - 1] + [nodes[|nodes| - 1]];
    }
  }

  lemma AllowedAre(nodes: seq<int>, banned: set<int>)
    ensures SetOf(Allowed(nodes, banned)) == SetOf(nodes) - banned
  {
    forall id
      ensures id in SetOf(Allowed(nodes, banned)) <==> id in SetOf(nodes) - banned
    {
      AllowedIff(nodes, banned, id);
    }
  }

  lemma LeadersAreNodes(nodes: seq<int>, until: map<int, Int32>, e: int)
    ensures SetOf(Leaders(nodes, until, e)) <= SetOf(nodes)
  {
    forall id | id in Leaders(nodes, until, e)
      ensures id in nodes
    {
      LeadsIff(nodes, until, e, id);
    }
  }

  /** The blacklist never excludes more than f nodes. */
  lemma BlacklistExcludesFew(nodes: seq<int>, run: seq<Suspicion>, list: seq<int>)
    requires list == ListAfter(Faults(|nodes|), run)
    ensures |SetOf(nodes) - SetOf(Allowed(nodes, SetOf(list)))| <= Faults(|nodes|)
  {
    BlacklistIsLatest(Faults(|nodes|), run);
    AllowedAre(nodes, SetOf(list));
    SetOfSize(list);
    assert SetOf(nodes) - (SetOf(nodes) - SetOf(list)) == SetOf(nodes) * SetOf(list);
    Cardinality(SetOf(nodes) * SetOf(list), SetOf(list));
  }

  /** The combined policy therefore always offers at least n - f members. */
  lemma CombinedOffersEnough(nodes: seq<int>, defaultBan: Int32, run: seq<Suspicion>, e: int, until: map<int, Int32>,
                             list: seq<int>)
    requires nodes != [] && Distinct(nodes) && InTime(run)
    requires until == BansAfter(nodes, defaultBan, run).until && list == ListAfter(Faults(|nodes|), run)
    ensures Combined(nodes, until, list, e) <= SetOf(nodes)
    ensures |Combined(nodes, until, list, e)| >= |nodes| - Faults(|nodes|)
  {
    BlacklistExcludesFew(nodes, run, list);
    DistinctSize(nodes);
    UnionOffersEnough(nodes, until, list, e);
  }

  lemma UnionOffersEnough(nodes: seq<int>, until: map<int, Int32>, list: seq<int>, e: int)
    ensures Combined(nodes, until, list, e) <= SetOf(nodes)
    ensures |Combined(nodes, until, list, e)| >= |SetOf(nodes)| - |SetOf(nodes) - SetOf(Allowed(nodes, SetOf(list)))|
  {
    var allowed := SetOf(Allowed(nodes, SetOf(list)));
    AllowedAre(nodes, SetOf(list));
    LeadersAreNodes(nodes, until, e);
    assert SetOf(nodes) == allowed + (SetOf(nodes) - allowed);
    Cardinality(allowed, Combined(nodes, until, list, e));
  }
}
