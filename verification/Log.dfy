/** The log of decided entries: slots filled in any order, published in order to every
    subscriber, with goroutines waiting for whole prefixes. `Log` is its state as a value;
    class `DecisionLog` keeps the same state in fields updated in place. */
module Log {
  datatype Entry = Entry(sn: int, content: string)

  /** What an in-order subscriber has received since it subscribed at slot `start`. */
  datatype Stream = Stream(start: nat, sent: seq<Entry>)

  /** A goroutine that waits for a slot and all the slots before it. */
  datatype Waiter = Waiter(id: nat, sn: int)

  datatype Log = Log(
    entries: map<int, Entry>,
    firstEmptySN: nat,
    streams: seq<Stream>,
    waiting: map<int, seq<Waiter>>,
    released: seq<Waiter>)

  function EmptyLog(): Log {
    Log(map[], 0, [], map[], [])
  }

  /** Only the first entry of a slot is kept. */
  function Store(l: Log, e: Entry): Log {
    if e.sn in l.entries then l else l.(entries := l.entries[e.sn := e])
  }

  function Extended(streams: seq<Stream>, e: Entry): (r: seq<Stream>)
    ensures |r| == |streams|
    ensures forall i :: 0 <= i < |streams| ==> r[i] == Stream(streams[i].start, streams[i].sent + [e])
  {
    seq(|streams|, i requires 0 <= i < |streams| => Stream(streams[i].start, streams[i].sent + [e]))
  }

  function WaitersAt(waiting: map<int, seq<Waiter>>, sn: int): seq<Waiter> {
    if sn in waiting then waiting[sn] else []
  }

  /** Publishes the first empty slot, which has been filled, and wakes those waiting for it. */
  function PublishOne(l: Log): Log
    requires l.firstEmptySN in l.entries
  {
    var sn := l.firstEmptySN;
    Log(l.entries, sn + 1, Extended(l.streams, l.entries[sn]), l.waiting - {sn}, l.released + WaitersAt(l.waiting, sn))
  }

  function Filled(entries: map<int, Entry>, from: nat): set<int> {
    set sn | sn in entries && sn >= from
  }

  lemma FilledShrinks(entries: map<int, Entry>, from: nat)
    requires from in entries
    ensures |Filled(entries, from + 1)| < |Filled(entries, from)|
  {
    assert Filled(entries, from) == Filled(entries, from + 1) + {from};
  }

  function Publish(l: Log): Log
    decreases |Filled(l.entries, l.firstEmptySN)|
  {
    if l.firstEmptySN in l.entries then
      FilledShrinks(l.entries, l.firstEmptySN);
      Publish(PublishOne(l))
    else l
  }

  function Subscribe(l: Log): Log {
    l.(streams := l.streams + [Stream(l.firstEmptySN, [])])
  }

  function Await(l: Log, w: Waiter): Log {
    if l.firstEmptySN > w.sn then l.(released := l.released + [w])
    else l.(waiting := l.waiting[w.sn := WaitersAt(l.waiting, w.sn) + [w]])
  }

  /** The empty slots in a range, ascending. */
  function MissingFrom(entries: map<int, Entry>, from: int, until: int): seq<int>
    decreases until - from
  {
    if from > until then []
    else (if from in entries then [] else [from]) + MissingFrom(entries, from + 1, until)
  }

  class DecisionLog {
    var entries: map<int, Entry>
    var firstEmptySN: nat
    var streams: seq<Stream>
    var waiting: map<int, seq<Waiter>>
    var released: seq<Waiter>

    function State(): Log
      reads this
    {
      Log(entries, firstEmptySN, streams, waiting, released)
    }

    constructor ()
      ensures State() == EmptyLog()
    {
      entries, firstEmptySN, streams, waiting, released := map[], 0, [], map[], [];
    }

    method CommitEntry(e: Entry)
      modifies this
      ensures State() == if e.sn in old(entries) then old(State()) else Publish(Store(old(State()), e))
    {
      if e.sn in entries {
        return;
      }
      entries := entries[e.sn := e];
      PublishEntries();
    }

    method PublishEntry(e: Entry)
      modifies this`streams
      ensures streams == Extended(old(streams), e)
    {
      for i := 0 to |streams|
        invariant |streams| == |old(streams)|
        invariant forall j :: 0 <= j < |streams| ==> streams[j] == if j < i then Extended(old(streams), e)[j] else old(streams)[j]
      {
        streams := streams[i := Stream(streams[i].start, streams[i].sent + [e])];
      }
    }

    method Notify(sn: int)
      modifies this`released, this`waiting
      ensures released == old(released) + WaitersAt(old(waiting), sn)
      ensures waiting == old(waiting) - {sn}
    {
      assert released + [] == released;
      if sn in waiting {
        for i := 0 to |waiting[sn]|
          invariant waiting == old(waiting) && released == old(released) + waiting[sn][..i]
        {
          released := released + [waiting[sn][i]];
        }
        assert waiting[sn][..|waiting[sn]|] == waiting[sn];
        waiting := waiting - {sn};
      }
    }

    method PublishEntries()
      modifies this
      ensures State() == Publish(old(State()))
    {
      while firstEmptySN in entries
        invariant entries == old(entries) && Publish(State()) == Publish(old(State()))
        decreases |Filled(entries, firstEmptySN)|
      {
        FilledShrinks(entries, firstEmptySN);
        PublishEntry(entries[firstEmptySN]);
        Notify(firstEmptySN);
        firstEmptySN := firstEmptySN + 1;
      }
    }

    /** The slots up to and including `until` that are empty. */
    method Missing(until: int) returns (missing: seq<int>)
      ensures missing == MissingFrom(entries, firstEmptySN, until)
    {
      missing := [];
      var sn: int := firstEmptySN;
      while sn <= until
        invariant missing + MissingFrom(entries, sn, until) == MissingFrom(entries, firstEmptySN, until)
      {
        ghost var rest := MissingFrom(entries, sn + 1, until);
        if sn !in entries {
          assert missing + ([sn] + rest) == missing + [sn] + rest;
          missing := missing + [sn];
        } else {
          assert [] + rest == rest;
        }
        sn := sn + 1;
      }
      assert missing + [] == missing;
    }

    method Entries() returns (subscriber: nat)
      modifies this
      ensures State() == Subscribe(old(State())) && subscriber == |old(streams)|
    {
      subscriber := |streams|;
      streams := streams + [Stream(firstEmptySN, [])];
    }

    /** Registers a waiter; it goes on at once if its prefix is already published. */
    method WaitForEntry(w: Waiter)
      modifies this
      ensures State() == Await(old(State()), w)
    {
      if firstEmptySN > w.sn {
        released := released + [w];
        return;
      }
      if w.sn !in waiting {
        waiting := waiting[w.sn := []];
      }
      waiting := waiting[w.sn := waiting[w.sn] + [w]];
    }
  }

  // ----- every run -----

  /** Storing and publishing are separate steps: several goroutines may commit at once. */
  datatype Step =
    | Storing(entry: Entry)
    | Publishing
    | Subscribing
    | Awaiting(waiter: Waiter)

  function Next(l: Log, step: Step): Log {
    match step
    case Storing(e) => Store(l, e)
    case Publishing => Publish(l)
    case Subscribing => Subscribe(l)
    case Awaiting(w) => Await(l, w)
  }

  function Run(steps: seq<Step>): Log {
    if steps == [] then EmptyLog() else Next(Run(steps[..|steps| - 1]), steps[|steps| - 1])
  }

  /** The first entry committed for each slot. */
  function FirstCommits(steps: seq<Step>): map<int, Entry> {
    if steps == [] then map[]
    else
      var before := FirstCommits(steps[..|steps| - 1]);
      match steps[|steps| - 1]
      case Storing(e) => if e.sn in before then before else before[e.sn := e]
      case _ => before
  }

  function WaitersOf(steps: seq<Step>): multiset<Waiter> {
    if steps == [] then multiset{}
    else
      var before := WaitersOf(steps[..|steps| - 1]);
      match steps[|steps| - 1]
      case Awaiting(w) => before + multiset{w}
      case _ => before
  }

  /** Entries `from` up to but not including `to`. */
  function Slots(entries: map<int, Entry>, from: nat, to: nat): seq<Entry>
    requires from <= to && forall sn: nat :: sn < to ==> sn in entries
  {
    if from == to then [] else Slots(entries, from, to - 1) + [entries[to - 1]]
  }

  ghost predicate PrefixOk(l: Log) {
    forall sn: nat {:trigger sn in l.entries} :: sn < l.firstEmptySN ==> sn in l.entries
  }

  ghost predicate StreamsOk(l: Log)
    requires PrefixOk(l)
  {
    forall i :: 0 <= i < |l.streams| ==>
      l.streams[i].start <= l.firstEmptySN && l.streams[i].sent == Slots(l.entries, l.streams[i].start, l.firstEmptySN)
  }

  ghost predicate WaitersOk(l: Log) {
    && (forall sn :: sn in l.waiting ==> sn >= l.firstEmptySN && forall w :: w in l.waiting[sn] ==> w.sn == sn)
    && (forall w :: w in l.released ==> w.sn < l.firstEmptySN)
  }

  ghost predicate Inv(l: Log) {
    PrefixOk(l) && StreamsOk(l) && WaitersOk(l) && forall sn :: sn in l.entries ==> l.entries[sn].sn == sn
  }

  lemma {:induction false} SlotsStable(entries: map<int, Entry>, e: Entry, from: nat, to: nat)
    requires from <= to && (forall sn: nat :: sn < to ==> sn in entries) && e.sn !in entries
    ensures Slots(entries[e.sn := e], from, to) == Slots(entries, from, to)
  {
    if from < to {
      SlotsStable(entries, e, from, to - 1);
    }
  }

  lemma StoreKeeps(l: Log, e: Entry)
    requires Inv(l)
    ensures Inv(Store(l, e))
  {
    if e.sn !in l.entries {
      forall i | 0 <= i < |l.streams|
        ensures l.streams[i].sent == Slots(Store(l, e).entries, l.streams[i].start, l.firstEmptySN)
      {
        SlotsStable(l.entries, e, l.streams[i].start, l.firstEmptySN);
      }
    }
  }

  lemma PublishOneKeeps(l: Log)
    requires Inv(l) && l.firstEmptySN in l.entries
    ensures Inv(PublishOne(l))
  {
  }

  lemma {:induction false} PublishKeeps(l: Log)
    requires Inv(l)
    ensures Inv(Publish(l))
    ensures Publish(l).entries == l.entries && Publish(l).firstEmptySN !in l.entries
    decreases |Filled(l.entries, l.firstEmptySN)|
  {
    if l.firstEmptySN in l.entries {
      FilledShrinks(l.entries, l.firstEmptySN);
      PublishOneKeeps(l);
      PublishKeeps(PublishOne(l));
    }
  }

  lemma {:induction false} RunInv(steps: seq<Step>)
    ensures Inv(Run(steps)) && Run(steps).entries == FirstCommits(steps)
  {
    if steps != [] {
      var before, step := Run(steps[..|steps| - 1]), steps[|steps| - 1];
      RunInv(steps[..|steps| - 1]);
      match step
      case Storing(e) => StoreKeeps(before, e);
      case Publishing => PublishKeeps(before);
      case Subscribing =>
      case Awaiting(w) =>
    }
  }

  // ----- the theorems -----

  /** Whatever the order of commits, repeats included, every subscriber has received exactly
      the slots from its subscription up to the first one not yet published, once each and
      in order, and each slot holds the first entry committed for it. */
  lemma PublishedInOrder(steps: seq<Step>, subscriber: nat)
    requires subscriber < |Run(steps).streams|
    ensures var (s, end) := (Run(steps).streams[subscriber], Run(steps).firstEmptySN);
      && s.start <= end && |s.sent| == end - s.start
      && forall k :: 0 <= k < |s.sent| ==>
           s.start + k in FirstCommits(steps) && s.sent[k] == FirstCommits(steps)[s.start + k] && s.sent[k].sn == s.start + k
  {
    RunInv(steps);
    var l := Run(steps);
    SlotsAre(l.entries, l.streams[subscriber].start, l.firstEmptySN);
  }

  lemma {:induction false} SlotsAre(entries: map<int, Entry>, from: nat, to: nat)
    requires from <= to && forall sn: nat :: sn < to ==> sn in entries
    ensures |Slots(entries, from, to)| == to - from
    ensures forall k :: 0 <= k < to - from ==> Slots(entries, from, to)[k] == entries[from + k]
  {
    if from < to {
      SlotsAre(entries, from, to - 1);
    }
  }

  /** A commit publishes everything up to the first slot that is still empty. */
  lemma CommitPublishesAll(steps: seq<Step>)
    ensures var l := Publish(Run(steps));
      && l.firstEmptySN !in FirstCommits(steps)
      && forall sn: nat :: sn < l.firstEmptySN ==> sn in FirstCommits(steps)
  {
    RunInv(steps);
    PublishKeeps(Run(steps));
  }

  /** `Missing` lists exactly the empty slots up to the bound, ascending. */
  lemma MissingIsExact(steps: seq<Step>, until: int, sn: int)
    ensures var missing := MissingFrom(Run(steps).entries, Run(steps).firstEmptySN, until);
      && (sn in missing <==> 0 <= sn <= until && sn !in FirstCommits(steps))
      && forall i, j :: 0 <= i < j < |missing| ==> missing[i] < missing[j]
  {
    RunInv(steps);
    MissingFromHas(Run(steps).entries, Run(steps).firstEmptySN, until, sn);
    MissingFromAscends(Run(steps).entries, Run(steps).firstEmptySN, until);
    assert 0 <= sn < Run(steps).firstEmptySN ==> sn in Run(steps).entries;
  }

  lemma {:induction false} MissingFromHas(entries: map<int, Entry>, from: int, until: int, sn: int)
    ensures sn in MissingFrom(entries, from, until) <==> from <= sn <= until && sn !in entries
    decreases until - from
  {
    if from <= until {
      MissingFromHas(entries, from + 1, until, sn);
    }
  }

  lemma {:induction false} MissingFromAscends(entries: map<int, Entry>, from: int, until: int)
    ensures forall i, j :: 0 <= i < j < |MissingFrom(entries, from, until)| ==>
      MissingFrom(entries, from, until)[i] < MissingFrom(entries, from, until)[j]
    decreases until - from
  {
    if from <= until {
      MissingFromAscends(entries, from + 1, until);
      var rest := MissingFrom(entries, from + 1, until);
      forall i | 0 <= i < |rest|
        ensures from < rest[i]
      {
        assert rest[i] in rest;
        MissingFromHas(entries, from + 1, until, rest[i]);
      }
    }
  }

  /** A waiter goes on exactly when its whole prefix has been published: never before, and
      no wake-up is lost. */
  lemma ReleasedIffPublished(steps: seq<Step>, w: Waiter)
    requires w in WaitersOf(steps)
    ensures w in Run(steps).released <==> w.sn < Run(steps).firstEmptySN
  {
    RunInv(steps);
    WaitersAccounted(steps, w);
  }

  /** Every waiter is waiting at its slot or has been released. */
  lemma {:induction false} WaitersAccounted(steps: seq<Step>, w: Waiter)
    requires w in WaitersOf(steps)
    ensures Accounted(Run(steps), w)
  {
    var before, step := steps[..|steps| - 1], steps[|steps| - 1];
    RunInv(before);
    if w in WaitersOf(before) {
      WaitersAccounted(before, w);
      if step.Publishing? {
        PublishAccounts(Run(before), w);
      }
    }
  }

  ghost predicate Accounted(l: Log, w: Waiter) {
    w in l.released || w in WaitersAt(l.waiting, w.sn)
  }

  lemma {:induction false} PublishAccounts(l: Log, w: Waiter)
    requires Accounted(l, w)
    ensures Accounted(Publish(l), w)
    decreases |Filled(l.entries, l.firstEmptySN)|
  {
    if l.firstEmptySN in l.entries {
      FilledShrinks(l.entries, l.firstEmptySN);
      PublishAccounts(PublishOne(l), w);
    }
  }
}
