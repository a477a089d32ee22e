/** Epochs and their segments: how the manager cuts the log into ranges of sequence numbers,
    one for each leader of an epoch, as the epochs' leaders change. */
module Segments {
  import Division
  import opened Buckets

  /** `segmentLength` 0 means that every epoch has `epochLength` numbers; otherwise an epoch
      has `segmentLength` numbers for each of its leaders. */
  datatype Config = Config(epochLength: nat, segmentLength: nat, nodes: seq<int>, buckets: nat)

  datatype Segment = Segment(
    id: nat,
    leaders: seq<int>,
    offset: nat,
    distance: nat,
    length: nat,
    startsAfter: int,
    sns: seq<int>)

  function EpochLength(c: Config, leaders: nat): nat {
    if c.segmentLength != 0 then c.segmentLength * leaders else c.epochLength
  }

  /** How many of the numbers i, i + segments, i + 2 * segments, ... are below `total`. */
  function SizeOf(total: int, segments: nat, i: nat): nat
    requires segments > 0
    decreases total
  {
    if i < total then 1 + SizeOf(total - segments, segments, i) else 0
  }

  /** Sharing out evenly, the first segments taking the remainder, gives just these sizes. */
  lemma {:induction false} EvenShare(total: nat, segments: nat, i: nat)
    requires i < segments
    ensures SizeOf(total, segments, i) == total / segments + if i < total % segments then 1 else 0
  {
    if total < segments {
      Division.Unique(total, segments, 0, total);
      assert i < total ==> SizeOf(total - segments, segments, i) == 0;
    } else {
      EvenShare(total - segments, segments, i);
      Division.Shift(total - segments, segments, 1);
    }
  }

  function Numbers(offset: int, distance: int, length: nat): (sns: seq<int>)
    ensures |sns| == length && forall j :: 0 <= j < length ==> sns[j] == offset + j * distance
  {
    seq(length, j => offset + j * distance)
  }

  /** Where a node is in the membership; the last place if it is nowhere. */
  function Position(nodes: seq<int>, node: int): (k: nat)
    ensures node in nodes ==> k < |nodes| && nodes[k] == node
    ensures nodes != [] ==> k < |nodes|
    ensures nodes == [] ==> k == 0
  {
    if |nodes| < 2 || nodes[0] == node then 0 else 1 + Position(nodes[1..], node)
  }

  /** The nodes in the order in which they lead the views of a segment. */
  function LeadersFrom(nodes: seq<int>, leader: int): seq<int> {
    nodes[Position(nodes, leader)..] + nodes[..Position(nodes, leader)]
  }

  /** What the segments of an epoch are computed from: its number, its leaders, and its first
      segment number and sequence number. */
  datatype Plan = Plan(epoch: nat, leaders: seq<int>, firstId: nat, start: nat)

  /** Segment number `i` of an epoch. */
  function SegmentOf(c: Config, p: Plan, i: nat): Segment
    requires i < |p.leaders|
  {
    var size := SizeOf(EpochLength(c, |p.leaders|), |p.leaders|, i);
    Segment(p.firstId + i, LeadersFrom(c.nodes, p.leaders[i]), p.start + i, |p.leaders|, size, p.start - 1,
            Numbers(p.start + i, |p.leaders|, size))
  }

  // ----- histories of leader lists -----

  /** Every epoch has leaders, none of them listed twice. */
  predicate Proper(history: seq<seq<int>>) {
    history == [] ||
    (history[|history| - 1] != [] && Distinct(history[|history| - 1]) && Proper(history[..|history| - 1]))
  }

  lemma {:induction false} ProperAt(history: seq<seq<int>>, e: nat)
    requires Proper(history) && e < |history|
    ensures history[e] != [] && Distinct(history[e])
  {
    if e < |history| - 1 {
      ProperAt(history[..|history| - 1], e);
    }
  }

  /** The first sequence number of epoch `e`. */
  function EpochStart(c: Config, history: seq<seq<int>>, e: nat): nat
    requires e <= |history|
  {
    if e == 0 then 0 else EpochStart(c, history, e - 1) + EpochLength(c, |history[e - 1]|)
  }

  /** The first segment number of epoch `e`. */
  function FirstId(history: seq<seq<int>>, e: nat): nat
    requires e <= |history|
  {
    if e == 0 then 0 else FirstId(history, e - 1) + |history[e - 1]|
  }

  function PlanAt(c: Config, history: seq<seq<int>>, e: nat): Plan
    requires e < |history|
  {
    Plan(e, history[e], FirstId(history, e), EpochStart(c, history, e))
  }

  function SegmentAt(c: Config, history: seq<seq<int>>, e: nat, i: nat): Segment
    requires e < |history| && i < |history[e]|
  {
    SegmentOf(c, PlanAt(c, history, e), i)
  }

  // ----- the manager -----

  method InitSNs(offset: int, distance: int, length: nat) returns (sns: seq<int>)
    ensures sns == Numbers(offset, distance, length)
  {
    sns := [];
    for i := 0 to length
      invariant |sns| == i && forall j :: 0 <= j < i ==> sns[j] == offset + j * distance
    {
      sns := sns + [offset + i * distance];
    }
  }

  method FillLengths(lengths: array<nat>, length: nat)
    modifies lengths
    ensures forall i :: 0 <= i < lengths.Length ==> lengths[i] == length
  {
    for i := 0 to lengths.Length
      invariant forall j :: 0 <= j < i ==> lengths[j] == length
    {
      lengths[i] := length;
    }
  }

  method AddRemainder(lengths: array<nat>, remainder: nat)
    requires remainder <= lengths.Length
    modifies lengths
    ensures forall i :: 0 <= i < lengths.Length ==> lengths[i] == old(lengths[i]) + if i < remainder then 1 else 0
  {
    for i := 0 to remainder
      invariant forall j :: 0 <= j < lengths.Length ==> lengths[j] == old(lengths[j]) + if j < i then 1 else 0
    {
      lengths[i] := lengths[i] + 1;
    }
  }

  method SegmentLengths(total: nat, segments: nat) returns (sizes: seq<nat>)
    requires segments > 0
    ensures |sizes| == segments && forall i :: 0 <= i < segments ==> sizes[i] == SizeOf(total, segments, i)
  {
    var lengths := new nat[segments];
    FillLengths(lengths, total / segments);
    AddRemainder(lengths, total % segments);
    sizes := lengths[..];
    EvenShares(total, segments, total / segments, total % segments, sizes);
  }

  lemma EvenShares(total: nat, segments: nat, length: nat, remainder: nat, sizes: seq<nat>)
    requires segments > 0 && length == total / segments && remainder == total % segments && |sizes| == segments
    requires forall i :: 0 <= i < segments ==> sizes[i] == length + if i < remainder then 1 else 0
    ensures forall i :: 0 <= i < segments ==> sizes[i] == SizeOf(total, segments, i)
  {
    forall i | 0 <= i < segments
      ensures sizes[i] == SizeOf(total, segments, i)
    {
      EvenShare(total, segments, i);
    }
  }

  method LeaderOffset(nodes: seq<int>, leader: int) returns (k: nat)
    ensures k == Position(nodes, leader)
  {
    k := 0;
    while k + 1 < |nodes| && nodes[k] != leader
      invariant k <= |nodes| && Position(nodes, leader) == k + Position(nodes[k..], leader)
      decreases |nodes| - k
    {
      assert nodes[k..][1..] == nodes[k + 1..];
      k := k + 1;
    }
  }

  /** The first `k` segments of an epoch. */
  function SegmentList(c: Config, p: Plan, k: nat): (list: seq<Segment>)
    requires k <= |p.leaders|
    ensures |list| == k
  {
    if k == 0 then [] else SegmentList(c, p, k - 1) + [SegmentOf(c, p, k - 1)]
  }

  lemma {:induction false} SegmentListAt(c: Config, p: Plan, k: nat, i: nat)
    requires i < k <= |p.leaders|
    ensures SegmentList(c, p, k)[i] == SegmentOf(c, p, i)
  {
    if i < k - 1 {
      SegmentListAt(c, p, k - 1, i);
    }
  }

  /** The first `k` segments, by the leader each of them belongs to. */
  function Indexed(leaders: seq<int>, list: seq<Segment>, k: nat): map<int, Segment>
    requires k <= |leaders| == |list|
  {
    if k == 0 then map[] else Indexed(leaders, list, k - 1)[leaders[k - 1] := list[k - 1]]
  }

  /** With no leader listed twice, no segment replaces another. */
  lemma {:induction false} EveryLeaderHasItsSegment(leaders: seq<int>, list: seq<Segment>, k: nat, i: nat)
    requires Distinct(leaders) && i < k <= |leaders| == |list|
    ensures leaders[i] in Indexed(leaders, list, k) && Indexed(leaders, list, k)[leaders[i]] == list[i]
  {
    if i < k - 1 {
      EveryLeaderHasItsSegment(leaders, list, k - 1, i);
      if leaders[i] == leaders[k - 1] {
        DistinctAt(leaders, i, k - 1);
      }
    }
  }

  function SegmentsOf(c: Config, p: Plan): map<int, Segment> {
    Indexed(p.leaders, SegmentList(c, p, |p.leaders|), |p.leaders|)
  }

  method NewSegment(c: Config, ghost p: Plan, epoch: nat, id: nat, leaders: seq<int>, start: nat, i: nat,
                    length: nat) returns (seg: Segment)
    requires p == Plan(epoch, leaders, p.firstId, start) && i < |leaders| && id == p.firstId + i
    requires length == SizeOf(EpochLength(c, |leaders|), |leaders|, i)
    ensures seg == SegmentList(c, p, |p.leaders|)[i]
  {
    var k := LeaderOffset(c.nodes, leaders[i]);
    var sns := InitSNs(start + i, |leaders|, length);
    SegmentListAt(c, p, |leaders|, i);
    seg := Segment(id, c.nodes[k..] + c.nodes[..k], start + i, |leaders|, length, start - 1, sns);
  }

  /** The buckets of the segments, by their leaders, as they are announced to clients. */
  ghost predicate AreBuckets(c: Config, p: Plan, buckets: map<int, seq<nat>>) {
    p.leaders != [] && buckets.Keys == SetOf(p.leaders) &&
    forall l :: l in buckets ==> buckets[l] == BucketsOf(c.nodes, p.leaders, p.epoch, c.buckets, l)
  }

  /** The manager's fields are those of the last epoch of a history of leader lists. */
  ghost predicate IsState(c: Config, history: seq<seq<int>>, p: Plan, epoch: nat, nextId: nat, last: int) {
    && Proper(history) && |history| == epoch + 1
    && nextId == FirstId(history, epoch + 1) && last == EpochStart(c, history, epoch + 1) - 1
    && p == PlanAt(c, history, epoch)
  }

  lemma NextNumbers(c: Config, history: seq<seq<int>>, leaders: seq<int>, epoch: nat, history': seq<seq<int>>)
    requires |history| == epoch + 1 && history' == history + [leaders]
    ensures history'[epoch + 1] == leaders
    ensures FirstId(history', epoch + 1) == FirstId(history, epoch + 1)
    ensures EpochStart(c, history', epoch + 1) == EpochStart(c, history, epoch + 1)
    ensures FirstId(history', epoch + 2) == FirstId(history, epoch + 1) + |leaders|
    ensures EpochStart(c, history', epoch + 2) == EpochStart(c, history, epoch + 1) + EpochLength(c, |leaders|)
  {
    HistoryGrows(c, history, leaders, epoch + 1);
  }

  lemma NextProper(history: seq<seq<int>>, leaders: seq<int>, history': seq<seq<int>>)
    requires Proper(history) && leaders != [] && Distinct(leaders) && history' == history + [leaders]
    ensures Proper(history')
  {
    assert history'[..|history|] == history;
  }

  class MirManager {
    const c: Config
    var epoch: nat
    var nextSegmentID: nat
    var currentSegments: map<int, Segment>
    var buckets: map<int, seq<nat>>
    var lastEpochSN: int

    /** The leaders of every epoch so far, and the plan of the current one. */
    ghost var history: seq<seq<int>>
    ghost var plan: Plan

    ghost predicate Valid()
      reads this
    {
      && Distinct(c.nodes) && IsState(c, history, plan, epoch, nextSegmentID, lastEpochSN)
      && currentSegments == SegmentsOf(c, plan) && AreBuckets(c, plan, buckets)
    }

    /** Starts with the segments of epoch 0. */
    constructor (c: Config, leaders: seq<int>)
      requires Distinct(c.nodes) && leaders != [] && Distinct(leaders)
      ensures Valid() && this.c == c && history == [leaders]
    {
      this.c := c;
      epoch, nextSegmentID := 0, 0;
      lastEpochSN := EpochLength(c, |leaders|) - 1;
      history := [leaders];
      plan := Plan(0, leaders, 0, 0);
      new;
      CreateSegments(leaders, 0);
    }

    method CreateSegments(leaders: seq<int>, offset: nat)
      requires Distinct(c.nodes) && leaders != [] && plan == Plan(epoch, leaders, nextSegmentID, offset)
      modifies this`currentSegments, this`nextSegmentID, this`buckets
      ensures currentSegments == SegmentsOf(c, plan) && AreBuckets(c, plan, buckets)
      ensures nextSegmentID == old(nextSegmentID) + |leaders|
    {
      var lengths := SegmentLengths(EpochLength(c, |leaders|), |leaders|);
      buckets := AssignBuckets(c.nodes, leaders, epoch, c.buckets);
      ghost var list := SegmentList(c, plan, |leaders|);
      var segments: map<int, Segment> := map[];
      for i := 0 to |leaders|
        invariant nextSegmentID == old(nextSegmentID) + i
        invariant segments == Indexed(leaders, list, i) && AreBuckets(c, plan, buckets)
      {
        var seg := NewSegment(c, plan, epoch, nextSegmentID, leaders, offset, i, lengths[i]);
        segments := segments[leaders[i] := seg];
        nextSegmentID := nextSegmentID + 1;
      }
      currentSegments := segments;
    }

    /** The log has delivered the entry of `sn`. The last entry of an epoch begins the next
        one; `leaders` is what the leader policy offers for it. */
    method OnEntry(sn: int, leaders: seq<int>) returns (advanced: bool)
      requires Valid() && leaders != [] && Distinct(leaders)
      modifies this
      ensures Valid() && advanced == (sn == old(lastEpochSN))
      ensures history == if advanced then old(history) + [leaders] else old(history)
    {
      advanced := sn == lastEpochSN;
      if advanced {
        NextNumbers(c, history, leaders, epoch, history + [leaders]);
        NextProper(history, leaders, history + [leaders]);
        history := history + [leaders];
        epoch := epoch + 1;
        plan := PlanAt(c, history, epoch);
        CreateSegments(leaders, sn + 1);
        AdvanceEnd(|leaders|);
      }
    }

    method AdvanceEnd(leaders: nat)
      modifies this`lastEpochSN
      ensures lastEpochSN == old(lastEpochSN) + EpochLength(c, leaders)
    {
      if c.segmentLength != 0 {
        lastEpochSN := lastEpochSN + c.segmentLength * leaders;
      } else {
        lastEpochSN := lastEpochSN + c.epochLength;
      }
    }
  }

  lemma {:induction false} HistoryGrows(c: Config, history: seq<seq<int>>, leaders: seq<int>, e: nat)
    requires e <= |history|
    ensures EpochStart(c, history + [leaders], e) == EpochStart(c, history, e)
    ensures FirstId(history + [leaders], e) == FirstId(history, e)
  {
    if e > 0 {
      HistoryGrows(c, history, leaders, e - 1);
    }
  }

  // ----- tiling -----

  /** Within an epoch: offset `i` and step `j` stay in the epoch exactly when segment `i` has
      a `j`-th number. */
  lemma {:induction false} FitsIff(total: int, segments: nat, i: nat, j: nat)
    requires segments > 0
    ensures j < SizeOf(total, segments, i) <==> i + j * segments < total
    decreases j
  {
    if j > 0 {
      assert (j - 1) * segments == j * segments - segments;
      if i < total {
        FitsIff(total - segments, segments, i, j - 1);
      } else {
        Division.AtLeastOnce(j, segments);
      }
    }
  }

  /** `sn` is number `j` of segment `i` of epoch `e`. */
  predicate Holds(c: Config, history: seq<seq<int>>, sn: int, e: nat, i: nat, j: nat) {
    && e < |history| && i < |history[e]| && j < |SegmentAt(c, history, e, i).sns|
    && SegmentAt(c, history, e, i).sns[j] == sn
  }

  lemma HoldsIff(c: Config, history: seq<seq<int>>, sn: int, e: nat, i: nat, j: nat, start: nat)
    requires e < |history| && i < |history[e]| && start == EpochStart(c, history, e)
    ensures Holds(c, history, sn, e, i, j) <==>
      sn == start + i + j * |history[e]| && sn < start + EpochLength(c, |history[e]|)
  {
    FitsIff(EpochLength(c, |history[e]|), |history[e]|, i, j);
  }

  lemma {:induction false} EpochsAscend(c: Config, history: seq<seq<int>>, e: nat, e': nat)
    requires e <= e' <= |history|
    ensures EpochStart(c, history, e) <= EpochStart(c, history, e') && FirstId(history, e) <= FirstId(history, e')
  {
    if e < e' {
      EpochsAscend(c, history, e, e' - 1);
    }
  }

  /** A segment stays inside its epoch. */
  lemma WithinEpoch(c: Config, history: seq<seq<int>>, sn: int, e: nat, i: nat, j: nat)
    requires Holds(c, history, sn, e, i, j)
    ensures EpochStart(c, history, e) <= sn < EpochStart(c, history, e + 1)
  {
    HoldsIff(c, history, sn, e, i, j, EpochStart(c, history, e));
    if j > 0 {
      Division.AtLeastOnce(j, |history[e]|);
    }
  }

  lemma {:induction false} FindEpoch(c: Config, history: seq<seq<int>>, sn: nat, end: nat) returns (e: nat)
    requires end <= |history| && sn < EpochStart(c, history, end)
    ensures e < end && EpochStart(c, history, e) <= sn < EpochStart(c, history, e + 1)
  {
    if sn >= EpochStart(c, history, end - 1) {
      e := end - 1;
    } else {
      e := FindEpoch(c, history, sn, end - 1);
    }
  }

  lemma CoveredInEpoch(c: Config, history: seq<seq<int>>, sn: int, e: nat, start: nat) returns (i: nat, j: nat)
    requires e < |history| && history[e] != [] && start == EpochStart(c, history, e)
    requires start <= sn < start + EpochLength(c, |history[e]|)
    ensures Holds(c, history, sn, e, i, j)
  {
    i, j := Division.Parts(sn - start, |history[e]|);
    HoldsIff(c, history, sn, e, i, j, start);
  }

  /** For every history of leader lists: every sequence number below the end of the current
      epoch lies in some segment of some epoch. */
  lemma EveryNumberCovered(c: Config, history: seq<seq<int>>, sn: nat) returns (e: nat, i: nat, j: nat)
    requires Proper(history) && sn < EpochStart(c, history, |history|)
    ensures Holds(c, history, sn, e, i, j)
  {
    e := FindEpoch(c, history, sn, |history|);
    ProperAt(history, e);
    i, j := CoveredInEpoch(c, history, sn, e, EpochStart(c, history, e));
  }

  lemma EpochUnique(c: Config, history: seq<seq<int>>, sn: int, e: nat, e': nat)
    requires e < |history| && e' < |history|
    requires EpochStart(c, history, e) <= sn < EpochStart(c, history, e + 1)
    requires EpochStart(c, history, e') <= sn < EpochStart(c, history, e' + 1)
    ensures e == e'
  {
    if e < e' {
      EpochsAscend(c, history, e + 1, e');
    } else if e' < e {
      EpochsAscend(c, history, e' + 1, e);
    }
  }

  /** Where a number is in its epoch follows from the number. */
  lemma PlaceIn(c: Config, history: seq<seq<int>>, sn: int, e: nat, i: nat, j: nat, start: nat)
    requires Holds(c, history, sn, e, i, j) && start == EpochStart(c, history, e)
    ensures i == (sn - start) % |history[e]| && j == (sn - start) / |history[e]|
  {
    HoldsIff(c, history, sn, e, i, j, start);
    Division.Unique(sn - start, |history[e]|, j, i);
  }

  /** And in no other place: two places of one number are the same place. */
  lemma NoNumberTwice(c: Config, history: seq<seq<int>>, sn: int, e: nat, i: nat, j: nat, e': nat, i': nat, j': nat)
    requires Holds(c, history, sn, e, i, j) && Holds(c, history, sn, e', i', j')
    ensures e == e' && i == i' && j == j'
  {
    WithinEpoch(c, history, sn, e, i, j);
    WithinEpoch(c, history, sn, e', i', j');
    EpochUnique(c, history, sn, e, e');
    PlaceIn(c, history, sn, e, i, j, EpochStart(c, history, e));
    PlaceIn(c, history, sn, e, i', j', EpochStart(c, history, e));
  }

  /** Tiling. For every history, the sequence numbers held by segments are exactly those
      below the end of the current epoch. */
  lemma Tiling(c: Config, history: seq<seq<int>>, sn: int)
    requires Proper(history)
    ensures (exists e: nat, i: nat, j: nat :: Holds(c, history, sn, e, i, j)) <==> 0 <= sn < EpochStart(c, history, |history|)
  {
    if 0 <= sn < EpochStart(c, history, |history|) {
      var e, i, j := EveryNumberCovered(c, history, sn);
    }
    forall e: nat, i: nat, j: nat | Holds(c, history, sn, e, i, j)
      ensures 0 <= sn < EpochStart(c, history, |history|)
    {
      WithinEpoch(c, history, sn, e, i, j);
      EpochsAscend(c, history, e + 1, |history|);
    }
  }

  /** How long segments and epochs are: with a segment length set, every segment has just that
      many numbers; without one, every epoch has the epoch length, shared out evenly. */
  lemma Lengths(c: Config, history: seq<seq<int>>, e: nat, i: nat)
    requires e < |history| && i < |history[e]|
    ensures c.segmentLength != 0 ==> |SegmentAt(c, history, e, i).sns| == c.segmentLength
    ensures c.segmentLength == 0 ==>
      && EpochStart(c, history, e + 1) - EpochStart(c, history, e) == c.epochLength
      && |SegmentAt(c, history, e, i).sns|
         == c.epochLength / |history[e]| + if i < c.epochLength % |history[e]| then 1 else 0
  {
    var n := |history[e]|;
    EvenShare(EpochLength(c, n), n, i);
    if c.segmentLength != 0 {
      Division.Unique(c.segmentLength * n, n, c.segmentLength, 0);
    }
  }

  lemma IdInEpoch(c: Config, history: seq<seq<int>>, e: nat, i: nat, id: nat)
    requires e < |history| && i < |history[e]| && id == SegmentAt(c, history, e, i).id
    ensures FirstId(history, e) + i == id < FirstId(history, e + 1)
  {
  }

  /** Segment numbers are never reused. */
  lemma SegmentIdsUnique(c: Config, history: seq<seq<int>>, e: nat, i: nat, e': nat, i': nat, id: nat)
    requires e < |history| && i < |history[e]| && e' < |history| && i' < |history[e']|
    requires SegmentAt(c, history, e, i).id == id == SegmentAt(c, history, e', i').id
    ensures e == e' && i == i'
  {
    IdInEpoch(c, history, e, i, id);
    IdInEpoch(c, history, e', i', id);
    EpochOfId(c, history, id, e, e');
  }

  lemma EpochOfId(c: Config, history: seq<seq<int>>, id: nat, e: nat, e': nat)
    requires e < |history| && e' < |history|
    requires FirstId(history, e) <= id < FirstId(history, e + 1)
    requires FirstId(history, e') <= id < FirstId(history, e' + 1)
    ensures e == e'
  {
    if e < e' {
      EpochsAscend(c, history, e + 1, e');
    } else if e' < e {
      EpochsAscend(c, history, e' + 1, e);
    }
  }

  /** A segment starts after all numbers of earlier epochs, and before those of later ones. */
  lemma StartsAfterEarlier(c: Config, history: seq<seq<int>>, sn: int, e: nat, i: nat, j: nat, e': nat, i': nat)
    requires Holds(c, history, sn, e, i, j) && e' < |history| && i' < |history[e']|
    ensures sn <= SegmentAt(c, history, e', i').startsAfter <==> e < e'
  {
    WithinEpoch(c, history, sn, e, i, j);
    if e < e' {
      EpochsAscend(c, history, e + 1, e');
    } else {
      EpochsAscend(c, history, e', e);
    }
  }

  /** The leaders of a segment's views are the nodes in membership order, from its own leader on
      and around. */
  lemma LeaderOfView(nodes: seq<int>, k: nat, view: nat)
    requires Distinct(nodes) && k < |nodes| && view < |nodes|
    ensures |LeadersFrom(nodes, nodes[k])| == |nodes|
    ensures LeadersFrom(nodes, nodes[k])[view] == nodes[if k + view < |nodes| then k + view else k + view - |nodes|]
  {
    DistinctAt(nodes, Position(nodes, nodes[k]), k);
  }

  /** A segment's own leader leads its first view, and every node gets its turn once. */
  lemma LeadersRotate(nodes: seq<int>, leader: int)
    requires leader in nodes
    ensures LeadersFrom(nodes, leader) != [] && LeadersFrom(nodes, leader)[0] == leader
    ensures multiset(LeadersFrom(nodes, leader)) == multiset(nodes)
  {
    var k := Position(nodes, leader);
    assert nodes == nodes[..k] + nodes[k..];
  }
}
