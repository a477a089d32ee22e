/** A node's deliverer across all its groups: the requests decided in any of them, merged into
    one order by GSN. `Merger` is its state as a value; class `GlobalDeliverer` keeps the same
    state in fields updated in place. */
module GlobalDelivery {
  import opened Requests
  import opened Metas

  datatype Delivery = Delivery(gsn: nat, groups: seq<nat>, req: Request)

  /** `mine` holds the groups the node belongs to. */
  datatype Merger = Merger(
    mine: set<nat>,
    meta: map<nat, seq<nat>>,
    metaPrefix: nat,
    committed: map<nat, Request>,
    lastDelivered: nat)

  function NewMerger(mine: set<nat>): Merger {
    Merger(mine, map[], 0, map[], 0)
  }

  predicate Touches(mine: set<nat>, groups: seq<nat>) {
    exists i :: 0 <= i < |groups| && groups[i] in mine
  }

  /** The GSN is settled, by delivering it or because it does not touch the node. */
  function Settle(g: Merger, gsn: nat): Merger {
    g.(meta := g.meta - {gsn}, committed := g.committed - {gsn}, lastDelivered := gsn)
  }

  function Merge(g: Merger): (Merger, seq<Delivery>)
    decreases g.metaPrefix - g.lastDelivered
  {
    if g.lastDelivered >= g.metaPrefix then (g, [])
    else
      var next := g.lastDelivered + 1;
      var groups := GroupsOf(g.meta, next);
      if !Touches(g.mine, groups) then Merge(Settle(g, next))
      else if next !in g.committed then (g, [])
      else
        var (g1, rest) := Merge(Settle(g, next));
        (g1, [Delivery(next, groups, g.committed[next])] + rest)
  }

  function WithPrefix(g: Merger): Merger {
    g.(metaPrefix := Extend(g.meta.Keys, g.metaPrefix))
  }

  function OnMeta(g: Merger, gsn: nat, groups: seq<nat>): (Merger, seq<Delivery>) {
    if gsn == 0 then (g, [])
    else if gsn !in g.meta && gsn > g.lastDelivered then Merge(WithPrefix(g.(meta := g.meta[gsn := groups])))
    else Merge(g)
  }

  function OnSkip(g: Merger, from: nat, to: nat): (Merger, seq<Delivery>) {
    if from == 0 || to < from then (g, [])
    else Merge(WithPrefix(g.(meta := WithSkips(g.meta, g.lastDelivered, from, to))))
  }

  /** A request decided in one of the node's groups; only the first one of a GSN counts. */
  function OnCommit(g: Merger, req: Option<Request>): (Merger, seq<Delivery>) {
    if req == None || req.value.gsn == 0 then (g, [])
    else if req.value.gsn > g.lastDelivered && req.value.gsn !in g.committed
    then Merge(g.(committed := g.committed[req.value.gsn := req.value]))
    else Merge(g)
  }

  /** The merger updated in place; `out` is what the delivery callback has received. */
  class GlobalDeliverer {
    const mine: set<nat>
    var meta: map<nat, seq<nat>>
    var metaPrefix: nat
    var committed: map<nat, Request>
    var lastDelivered: nat
    var out: seq<Delivery>

    function State(): Merger
      reads this
    {
      Merger(mine, meta, metaPrefix, committed, lastDelivered)
    }

    constructor (mine: set<nat>)
      ensures State() == NewMerger(mine) && out == []
    {
      this.mine := mine;
      meta, metaPrefix, committed, lastDelivered := map[], 0, map[], 0;
      out := [];
    }

    method TouchesMine(groups: seq<nat>) returns (touches: bool)
      ensures touches <==> Touches(mine, groups)
    {
      for i := 0 to |groups|
        invariant forall j :: 0 <= j < i ==> groups[j] !in mine
      {
        if groups[i] in mine {
          return true;
        }
      }
      return false;
    }

    method MergeAndEmit()
      modifies this
      ensures State() == Merge(old(State())).0
      ensures out == old(out) + Merge(old(State())).1
    {
      ghost var whole := Merge(State());
      var sent: seq<Delivery> := [];
      assert sent + whole.1 == whole.1;
      while lastDelivered < metaPrefix
        invariant out == old(out)
        invariant whole == (Merge(State()).0, sent + Merge(State()).1)
        decreases metaPrefix - lastDelivered
      {
        var next := lastDelivered + 1;
        var groups := GroupsOf(meta, next);
        var touches := TouchesMine(groups);
        if touches && next !in committed {
          break;
        }
        ghost var rest := Merge(Settle(State(), next)).1;
        if touches {
          assert sent + ([Delivery(next, groups, committed[next])] + rest)
              == (sent + [Delivery(next, groups, committed[next])]) + rest;
          sent := sent + [Delivery(next, groups, committed[next])];
        }
        meta := meta - {next};
        committed := committed - {next};
        lastDelivered := next;
      }
      assert sent + [] == sent;
      out := out + sent;
    }

    method AdvancePrefix()
      modifies this`metaPrefix
      ensures State() == WithPrefix(old(State()))
    {
      while metaPrefix + 1 in meta
        invariant Extend(meta.Keys, metaPrefix) == Extend(meta.Keys, old(metaPrefix))
        decreases |Above(meta.Keys, metaPrefix)|
      {
        assert Above(meta.Keys, metaPrefix) == Above(meta.Keys, metaPrefix + 1) + {metaPrefix + 1};
        metaPrefix := metaPrefix + 1;
      }
    }

    method RegisterMeta(gsn: nat, groups: seq<nat>)
      modifies this
      ensures State() == OnMeta(old(State()), gsn, groups).0
      ensures out == old(out) + OnMeta(old(State()), gsn, groups).1
    {
      if gsn == 0 {
        return;
      }
      if gsn !in meta && gsn > lastDelivered {
        meta := meta[gsn := groups];
        AdvancePrefix();
      }
      MergeAndEmit();
    }

    method RecordSkips(from: nat, to: nat)
      requires from <= to
      modifies this`meta
      ensures meta == WithSkips(old(meta), lastDelivered, from, to)
      ensures forall g: nat :: g in meta <==> g in old(meta) || (from <= g <= to && g > lastDelivered)
    {
      for gsn := from to to + 1
        invariant forall g: nat :: g in meta <==> g in old(meta) || (from <= g < gsn && g > lastDelivered)
        invariant forall g: nat :: g in meta ==> meta[g] == GroupsOf(old(meta), g)
      {
        if gsn !in meta && gsn > lastDelivered {
          meta := meta[gsn := []];
        }
      }
    }

    method RegisterSkip(from: nat, to: nat)
      modifies this
      ensures State() == OnSkip(old(State()), from, to).0
      ensures out == old(out) + OnSkip(old(State()), from, to).1
    {
      if from == 0 || to < from {
        return;
      }
      RecordSkips(from, to);
      AdvancePrefix();
      MergeAndEmit();
    }

    method RegisterCommit(req: Option<Request>)
      modifies this
      ensures State() == OnCommit(old(State()), req).0
      ensures out == old(out) + OnCommit(old(State()), req).1
    {
      if req == None || req.value.gsn == 0 {
        return;
      }
      if req.value.gsn > lastDelivered {
        if req.value.gsn !in committed {
          committed := committed[req.value.gsn := req.value];
        }
      }
      MergeAndEmit();
    }
  }
}
