/** One group's deliverer: it replays the group's decided log, pulling cross-group
    operations forward so that they come out in GSN order. `Deliverer` is its state as a
    value; class `GroupDeliverer` keeps the same state in fields updated in place. */
module GroupDelivery {
  import opened Requests
  import opened Metas

  /** The log is compacted once more than this many delivered items are at its front. */
  const COMPACT_AFTER := 4096

  /** A request with the sequence number of its batch; `leader` tells whether this replica
      led that sequence number. */
  datatype Item = Item(sn: int, leader: bool, req: Request)

  datatype Deliverer = Deliverer(
    gid: nat,
    log: seq<Item>,
    head: nat,
    crossInLog: map<nat, Item>,
    early: set<nat>,
    meta: map<nat, seq<nat>>,
    metaPrefix: nat,
    cursor: nat)

  function NewDeliverer(gid: nat): Deliverer {
    Deliverer(gid, [], 0, map[], {}, map[], 0, 0)
  }

  /** Does this GSN not concern the group: skipped, single-group, elsewhere or already out? */
  predicate Passes(d: Deliverer, gsn: nat) {
    |GroupsOf(d.meta, gsn)| < 2 || d.gid !in GroupsOf(d.meta, gsn) || gsn in d.early
  }

  /** Moves the cursor to just before the next GSN the group must deliver, as far as METAs are known. */
  function AdvanceCursor(d: Deliverer): Deliverer
    decreases d.metaPrefix - d.cursor
  {
    if d.cursor < d.metaPrefix && Passes(d, d.cursor + 1)
    then AdvanceCursor(d.(meta := d.meta - {d.cursor + 1}, cursor := d.cursor + 1))
    else d
  }

  /** The GSN an advanced cursor stops before; 0 when a META is missing. */
  function Pending(d: Deliverer): nat {
    if d.cursor < d.metaPrefix then d.cursor + 1 else 0
  }

  function MarkDelivered(d: Deliverer, gsn: nat): Deliverer {
    d.(crossInLog := d.crossInLog - {gsn}, meta := d.meta - {gsn},
       cursor := if gsn == d.cursor + 1 then gsn else d.cursor)
  }

  /** One turn of the delivery loop: it either waits or goes on, delivering at most one item. */
  datatype Turn = Wait(d: Deliverer) | Go(d: Deliverer, sent: seq<Item>)

  function TakeTurn(d: Deliverer): Turn
    requires d.head < |d.log|
  {
    var it := d.log[d.head];
    var passed := d.(head := d.head + 1);
    if !IsCross(it.req) then Go(passed, [it])
    else if it.req.gsn in d.early then Go(passed.(early := d.early - {it.req.gsn}), [])
    else
      AdvanceFrame(d);
      Decide(AdvanceCursor(d))
  }

  /** The head is a cross-group operation that is not out, and the cursor has advanced. */
  function Decide(d: Deliverer): Turn
    requires d.head < |d.log|
  {
    var it := d.log[d.head];
    var c := it.req.gsn;
    var next := Pending(d);
    if next == 0 then Wait(d)
    else if next == c then Go(MarkDelivered(d, c).(head := d.head + 1), [it])
    else if next > c then Go(d.(crossInLog := d.crossInLog - {c}, head := d.head + 1), [it])
    else if next !in d.crossInLog then Wait(d)
    else Go(MarkDelivered(d, next).(early := d.early + {next}), [d.crossInLog[next]])
  }

  /** Runs the delivery loop until it has to wait; returns the deliveries in order. */
  function Drain(d: Deliverer): (Deliverer, seq<Item>)
    requires d.head <= |d.log|
    decreases |d.log| - d.head, |d.crossInLog|
  {
    if d.head == |d.log| then (d, [])
    else
      TurnFrame(d);
      match TakeTurn(d)
      case Wait(d1) => (d1, [])
      case Go(d1, sent) => (Drain(d1).0, sent + Drain(d1).1)
  }

  /** A turn moves the head or uses up a cross-group operation of the log, so the loop ends. */
  lemma TurnFrame(d: Deliverer)
    requires d.head < |d.log|
    ensures var d1 := TakeTurn(d).d;
      && d1.log == d.log && d1.gid == d.gid && d1.metaPrefix == d.metaPrefix && d.head <= d1.head <= |d.log|
      && (TakeTurn(d).Go? && d1.head == d.head ==> |d1.crossInLog| < |d.crossInLog|)
  {
    AdvanceFrame(d);
    var d1 := AdvanceCursor(d);
    var next := Pending(d1);
    if TakeTurn(d).Go? && TakeTurn(d).d.head == d.head {
      assert (d1.crossInLog - {next}).Keys == d1.crossInLog.Keys - {next};
      assert |d1.crossInLog.Keys - {next}| < |d1.crossInLog.Keys|;
    }
  }

  function Then(sent: seq<Item>, rest: (Deliverer, seq<Item>)): (Deliverer, seq<Item>) {
    (rest.0, sent + rest.1)
  }

  lemma DrainUnfolds(d: Deliverer, sent: seq<Item>)
    requires d.head < |d.log|
    ensures TakeTurn(d).Wait? ==> Then(sent, Drain(d)) == (TakeTurn(d).d, sent)
    ensures TakeTurn(d).Go? ==>
      TakeTurn(d).d.head <= |TakeTurn(d).d.log| &&
      Then(sent, Drain(d)) == Then(sent + TakeTurn(d).sent, Drain(TakeTurn(d).d))
  {
    TurnFrame(d);
    assert sent + [] == sent;
    if TakeTurn(d).Go? {
      assert sent + (TakeTurn(d).sent + Drain(TakeTurn(d).d).1) == (sent + TakeTurn(d).sent) + Drain(TakeTurn(d).d).1;
    }
  }

  lemma AdvanceFrame(d: Deliverer)
    ensures AdvanceCursor(d) == d.(meta := AdvanceCursor(d).meta, cursor := AdvanceCursor(d).cursor)
    ensures d.cursor <= AdvanceCursor(d).cursor
    ensures d.cursor <= d.metaPrefix ==> AdvanceCursor(d).cursor <= d.metaPrefix
    decreases d.metaPrefix - d.cursor
  {
  }

  /** Drops the delivered front of a long log. */
  function Compact(d: Deliverer): Deliverer
    requires d.head <= |d.log|
  {
    if d.head > COMPACT_AFTER && d.head * 2 > |d.log|
    then d.(log := d.log[d.head..], head := 0)
    else d
  }

  function DrainLocked(d: Deliverer): (r: (Deliverer, seq<Item>))
    requires d.head <= |d.log|
    ensures r.0.head <= |r.0.log|
  {
    DrainFrame(d);
    (Compact(Drain(d).0), Drain(d).1)
  }

  lemma DrainFrame(d: Deliverer)
    requires d.head <= |d.log|
    ensures Drain(d).0.log == d.log && Drain(d).0.gid == d.gid && d.head <= Drain(d).0.head <= |d.log|
    ensures Drain(d).0.metaPrefix == d.metaPrefix
    decreases |d.log| - d.head, |d.crossInLog|
  {
    if d.head < |d.log| {
      TurnFrame(d);
      if TakeTurn(d).Go? {
        DrainFrame(TakeTurn(d).d);
      }
    }
  }

  // ----- the three entry points -----

  /** A decided request joins the log; repeated copies of a cross-group operation do not. */
  function Append(d: Deliverer, it: Item): Deliverer {
    var c := it.req.gsn;
    if !IsCross(it.req) then d.(log := d.log + [it])
    else if c <= d.cursor || c in d.early || c in d.crossInLog then d
    else d.(log := d.log + [it], crossInLog := d.crossInLog[c := it])
  }

  function AppendAll(d: Deliverer, sn: int, leader: bool, requests: seq<Option<Request>>): (r: Deliverer)
    ensures d.head <= |d.log| ==> r.head <= |r.log|
  {
    if requests == [] then d
    else
      var d1 := AppendAll(d, sn, leader, requests[..|requests| - 1]);
      var last := requests[|requests| - 1];
      if last == None then d1 else Append(d1, Item(sn, leader, last.value))
  }

  function Push(d: Deliverer, sn: int, leader: bool, requests: seq<Option<Request>>): (Deliverer, seq<Item>)
    requires d.head <= |d.log|
  {
    if requests == [] then (d, []) else DrainLocked(AppendAll(d, sn, leader, requests))
  }

  function ExtendPrefix(d: Deliverer): Deliverer {
    d.(metaPrefix := Extend(d.meta.Keys, d.metaPrefix))
  }

  /** The META of a GSN; only the first one counts. */
  function OnMeta(d: Deliverer, gsn: nat, groups: seq<nat>): (Deliverer, seq<Item>)
    requires d.head <= |d.log|
  {
    if gsn == 0 then (d, [])
    else if gsn !in d.meta && gsn > d.cursor then DrainLocked(ExtendPrefix(d.(meta := d.meta[gsn := groups])))
    else DrainLocked(d)
  }

  /** A range of GSNs that will never be assigned. */
  function OnSkip(d: Deliverer, from: nat, to: nat): (Deliverer, seq<Item>)
    requires d.head <= |d.log|
  {
    if from == 0 || to < from then (d, [])
    else DrainLocked(ExtendPrefix(d.(meta := WithSkips(d.meta, d.cursor, from, to))))
  }

  /** The deliverer with its five structures updated in place. `out` is the channel on
      which the deliveries of each call are sent, in order. */
  class GroupDeliverer {
    const gid: nat
    var log: seq<Item>
    var head: nat
    var crossInLog: map<nat, Item>
    var early: set<nat>
    var meta: map<nat, seq<nat>>
    var metaPrefix: nat
    var cursor: nat
    var out: seq<Item>

    function State(): Deliverer
      reads this
    {
      Deliverer(gid, log, head, crossInLog, early, meta, metaPrefix, cursor)
    }

    predicate Valid()
      reads this
    {
      head <= |log|
    }

    constructor (gid: nat)
      ensures Valid() && State() == NewDeliverer(gid) && out == []
    {
      this.gid := gid;
      log, head, crossInLog, early := [], 0, map[], {};
      meta, metaPrefix, cursor := map[], 0, 0;
      out := [];
    }

    method Advance() returns (next: nat)
      requires Valid()
      modifies this`meta, this`cursor
      ensures Valid() && State() == AdvanceCursor(old(State()))
      ensures next == Pending(State())
    {
      while cursor < metaPrefix
        invariant AdvanceCursor(State()) == AdvanceCursor(old(State()))
        decreases metaPrefix - cursor
      {
        var next := cursor + 1;
        var groups := GroupsOf(meta, next);
        if |groups| < 2 || gid !in groups || next in early {
          meta := meta - {next};
          cursor := next;
          continue;
        }
        return next;
      }
      next := 0;
    }

    method Mark(gsn: nat)
      requires Valid()
      modifies this`crossInLog, this`meta, this`cursor
      ensures Valid() && State() == MarkDelivered(old(State()), gsn)
    {
      crossInLog := crossInLog - {gsn};
      meta := meta - {gsn};
      if gsn == cursor + 1 {
        cursor := gsn;
      }
    }

    /** The body of the delivery loop; `more` is false when it breaks out. */
    method Turn() returns (more: bool, sent: seq<Item>)
      requires Valid() && head < |log|
      modifies this`head, this`crossInLog, this`early, this`meta, this`cursor
      ensures Valid() && State() == TakeTurn(old(State())).d && more == TakeTurn(old(State())).Go?
      ensures more ==> sent == TakeTurn(old(State())).sent
      ensures !more ==> sent == []
    {
      var it := log[head];
      AdvanceFrame(State());
      if !IsCross(it.req) {
        head := head + 1;
        return true, [it];
      }
      var c := it.req.gsn;
      if c in early {
        early := early - {c};
        head := head + 1;
        return true, [];
      }
      var next := Advance();
      if next == 0 {
        return false, [];
      }
      if next == c {
        Mark(c);
        head := head + 1;
        return true, [it];
      }
      if next > c {
        crossInLog := crossInLog - {c};
        head := head + 1;
        return true, [it];
      }
      if next !in crossInLog {
        return false, [];
      }
      sent := [crossInLog[next]];
      early := early + {next};
      Mark(next);
      more := true;
    }

    method DrainLoop() returns (sent: seq<Item>)
      requires Valid()
      modifies this`head, this`crossInLog, this`early, this`meta, this`cursor
      ensures Valid() && (State(), sent) == Drain(old(State()))
    {
      ghost var whole := Drain(State());
      sent := [];
      assert sent + whole.1 == whole.1;
      var more := true;
      while more && head < |log|
        invariant Valid()
        invariant whole == if more then Then(sent, Drain(State())) else (State(), sent)
        decreases more, |log| - head, |crossInLog|
      {
        ghost var before := State();
        TurnFrame(before);
        var delivered;
        more, delivered := Turn();
        DrainUnfolds(before, sent);
        sent := sent + delivered;
      }
      assert sent + [] == sent;
    }

    method DrainAndSend()
      requires Valid()
      modifies this
      ensures Valid()
      ensures State() == DrainLocked(old(State())).0
      ensures out == old(out) + DrainLocked(old(State())).1
    {
      var sent := DrainLoop();
      if head > COMPACT_AFTER && head * 2 > |log| {
        log := log[head..];
        head := 0;
      }
      out := out + sent;
    }

    method PushBatch(sn: int, leader: bool, requests: seq<Option<Request>>)
      requires Valid()
      modifies this
      ensures Valid()
      ensures State() == Push(old(State()), sn, leader, requests).0
      ensures out == old(out) + Push(old(State()), sn, leader, requests).1
    {
      if requests == [] {
        return;
      }
      for i := 0 to |requests|
        invariant Valid() && out == old(out)
        invariant State() == AppendAll(old(State()), sn, leader, requests[..i])
      {
        assert requests[..i + 1][..i] == requests[..i];
        if requests[i] == None {
          continue;
        }
        var it := Item(sn, leader, requests[i].value);
        if IsCross(it.req) {
          if it.req.gsn <= cursor || it.req.gsn in early {
            continue;
          }
          if it.req.gsn in crossInLog {
            continue;
          }
          crossInLog := crossInLog[it.req.gsn := it];
        }
        log := log + [it];
      }
      assert requests[..|requests|] == requests;
      DrainAndSend();
    }

    method AdvancePrefix()
      requires Valid()
      modifies this`metaPrefix
      ensures Valid() && State() == ExtendPrefix(old(State()))
    {
      while metaPrefix + 1 in meta
        invariant Extend(meta.Keys, metaPrefix) == Extend(meta.Keys, old(metaPrefix))
        decreases |Above(meta.Keys, metaPrefix)|
      {
        assert Above(meta.Keys, metaPrefix) == Above(meta.Keys, metaPrefix + 1) + {metaPrefix + 1};
        metaPrefix := metaPrefix + 1;
      }
    }

    method RegisterMeta(gsn: nat, groups: seq<nat>)
      requires Valid()
      modifies this
      ensures Valid()
      ensures State() == OnMeta(old(State()), gsn, groups).0
      ensures out == old(out) + OnMeta(old(State()), gsn, groups).1
    {
      if gsn == 0 {
        return;
      }
      if gsn !in meta && gsn > cursor {
        meta := meta[gsn := groups];
        AdvancePrefix();
      }
      DrainAndSend();
    }

    method RegisterSkip(from: nat, to: nat)
      requires Valid()
      modifies this
      ensures Valid()
      ensures State() == OnSkip(old(State()), from, to).0
      ensures out == old(out) + OnSkip(old(State()), from, to).1
    {
      if from == 0 || to < from {
        return;
      }
      RecordSkips(from, to);
      AdvancePrefix();
      DrainAndSend();
    }

    method RecordSkips(from: nat, to: nat)
      requires Valid() && from <= to
      modifies this`meta
      ensures Valid() && meta == WithSkips(old(meta), cursor, from, to)
      ensures forall g: nat :: g in meta <==> g in old(meta) || (from <= g <= to && g > cursor)
    {
      for gsn := from to to + 1
        invariant forall g: nat :: g in meta <==> g in old(meta) || (from <= g < gsn && g > cursor)
        invariant forall g: nat :: g in meta ==> meta[g] == GroupsOf(old(meta), g)
      {
        if gsn !in meta && gsn > cursor {
          meta := meta[gsn := []];
        }
      }
    }
  }
}
