/** Key by key: what any sequence of deliveries does to the value of one key of one group. */
module Balances {
  import opened Requests
  import opened Command
  import opened StateMachine
  import opened Conservation

  // ----- transfers -----

  /** What a delivery takes from a key of a group: a transfer is debited at its source group. */
  function DebitAt(e: Event, gid: nat, key: string): int {
    if e.gid == gid && e.c.Transfer? && e.c.fromGroup == gid && e.c.fromKey == key then e.c.amount else 0
  }

  /** What a delivery adds to a key of a group: credited at the target group, if it is another one. */
  function CreditAt(e: Event, gid: nat, key: string): int {
    if e.gid == gid && e.c.Transfer? && e.c.toGroup == gid && e.c.fromGroup != gid && e.c.toKey == key then e.c.amount
    else 0
  }

  function DebitsAt(events: seq<Event>, gid: nat, key: string): int {
    if events == [] then 0 else DebitsAt(events[..|events| - 1], gid, key) + DebitAt(events[|events| - 1], gid, key)
  }

  function CreditsAt(events: seq<Event>, gid: nat, key: string): int {
    if events == [] then 0 else CreditsAt(events[..|events| - 1], gid, key) + CreditAt(events[|events| - 1], gid, key)
  }

  /** A delivery moves exactly what it debits and credits at each key. */
  lemma DeliveryMovesKey(states: States, e: Event, gid: nat, key: string, after: States)
    requires gid in states && MovesOnly(e.c) && after == Deliver(states, e)
    ensures gid in after
    ensures Balance(after[gid], key) == Wrap64(Balance(states[gid], key) + CreditAt(e, gid, key) - DebitAt(e, gid, key))
  {
    WrapWithin(Balance(states[gid], key));
    if e.gid == gid {
      ApplyIsEffect(gid, states[gid], e.c, Apply(gid, states[gid], e.c));
      KeyMoved(gid, e.c, states[gid], after[gid], key, Apply(gid, states[gid], e.c));
    }
  }

  lemma KeyMoved(gid: nat, c: Command, before: Data, after: Data, key: string, r: Option<Applied>)
    requires MovesOnly(c) && after == if r.Some? then r.value.data else before
    requires if r.Some? then IsEffect(gid, c, before, after, true, r.value.value, r.value.found)
             else IsEffect(gid, c, before, after, false, [], false)
    ensures Balance(after, key)
            == Wrap64(Balance(before, key) + CreditAt(Event(gid, c), gid, key) - DebitAt(Event(gid, c), gid, key))
  {
    WrapWithin(Balance(before, key));
    assert Lookup(after, key) == Lookup(before, key) ==> Balance(after, key) == Balance(before, key);
  }

  /** The per-key law. After any deliveries of transfers and reads, at any groups in any order, the
      balance of a key is its initial balance plus the transfers that credited this key at this
      group minus those that debited it there, as a 64-bit integer. */
  lemma {:induction false} BalanceFollowsTransfers(states: States, events: seq<Event>, gid: nat, key: string)
    requires gid in states && forall i :: 0 <= i < |events| ==> MovesOnly(events[i].c)
    ensures gid in DeliverAll(states, events)
    ensures Balance(DeliverAll(states, events)[gid], key)
            == Wrap64(Balance(states[gid], key) + CreditsAt(events, gid, key) - DebitsAt(events, gid, key))
  {
    if events == [] {
      WrapWithin(Balance(states[gid], key));
    } else {
      var before, e := events[..|events| - 1], events[|events| - 1];
      var middle := DeliverAll(states, before);
      BalanceFollowsTransfers(states, before, gid, key);
      DeliveryMovesKey(middle, e, gid, key, DeliverAll(states, events));
      var moved := CreditAt(e, gid, key) - DebitAt(e, gid, key);
      WrapAdds(moved, Balance(states[gid], key) + CreditsAt(before, gid, key) - DebitsAt(before, gid, key));
    }
  }

  // ----- any commands -----

  /** May change the key at the group. */
  predicate Writes(gid: nat, c: Command, key: string) {
    match c
    case Put(k, _) => k == key
    case Get(_) => false
    case Delete(k) => k == key
    case Transfer(fromGroup, fromKey, toGroup, toKey, _) =>
      (gid == fromGroup && fromKey == key) || (gid != fromGroup && gid == toGroup && toKey == key)
  }

  lemma OnlyWritesChange(gid: nat, data: Data, c: Command, key: string)
    requires !Writes(gid, c, key)
    ensures Lookup(StateAfter(gid, data, c), key) == Lookup(data, key)
  {
    ApplyIsEffect(gid, data, c, Apply(gid, data, c));
  }

  /** A key that no delivery writes at the group keeps its value, or its absence. */
  lemma {:induction false} UnwrittenStays(states: States, events: seq<Event>, gid: nat, key: string)
    requires gid in states && forall i :: 0 <= i < |events| && events[i].gid == gid ==> !Writes(gid, events[i].c, key)
    ensures gid in DeliverAll(states, events)
    ensures Lookup(DeliverAll(states, events)[gid], key) == Lookup(states[gid], key)
  {
    if events != [] {
      var before, e := events[..|events| - 1], events[|events| - 1];
      UnwrittenStays(states, before, gid, key);
      if e.gid == gid {
        OnlyWritesChange(gid, DeliverAll(states, before)[gid], e.c, key);
      }
    }
  }

  // ----- the last write -----

  /** The command that a request carries for the state machine. */
  function Carried(req: Option<Request>): Option<Command> {
    if req == None || req.value.id == None then None else DecodeAPICommand(req.value.payload)
  }

  predicate WritesAt(gid: nat, req: Option<Request>, key: string) {
    Carried(req).Some? && Writes(gid, Carried(req).value, key)
  }

  /** None of the requests from number `i` up to number `n` writes the key. */
  ghost predicate Unwritten(gid: nat, requests: seq<Option<Request>>, key: string, i: nat, n: nat) {
    forall j :: i <= j < n <= |requests| ==> !WritesAt(gid, requests[j], key)
  }

  lemma {:induction false} UnwrittenSince(gid: nat, data: Data, requests: seq<Option<Request>>, key: string, i: nat, n: nat)
    requires i <= n <= |requests| && Unwritten(gid, requests, key, i, n)
    ensures Lookup(ApplyAll(gid, data, requests[..n]), key) == Lookup(ApplyAll(gid, data, requests[..i]), key)
  {
    if i < n {
      UnwrittenSince(gid, data, requests, key, i, n - 1);
      OneMoreRequest(gid, data, requests, n - 1);
      assert !WritesAt(gid, requests[n - 1], key);
      if Carried(requests[n - 1]).Some? {
        OnlyWritesChange(gid, ApplyAll(gid, data, requests[..n - 1]), Carried(requests[n - 1]).value, key);
      }
    }
  }

  lemma OneMoreRequest(gid: nat, data: Data, requests: seq<Option<Request>>, i: nat)
    requires i < |requests|
    ensures ApplyAll(gid, data, requests[..i + 1]) ==
      match Carried(requests[i])
      case Some(c) => StateAfter(gid, ApplyAll(gid, data, requests[..i]), c)
      case None => ApplyAll(gid, data, requests[..i])
  {
    assert requests[..i + 1][..i] == requests[..i];
  }

  /** The last write wins: whatever came before, a key that a put set last holds its value, and a
      key that a deletion removed last is absent. */
  lemma LastWriteWins(gid: nat, data: Data, requests: seq<Option<Request>>, key: string, i: nat, n: nat, v: Option<seq<Byte>>)
    requires i < n <= |requests| && Unwritten(gid, requests, key, i + 1, n)
    requires Carried(requests[i]) == Some(if v.Some? then Put(key, v.value) else Delete(key))
    ensures Lookup(ApplyAll(gid, data, requests[..n]), key) == v
  {
    OneMoreRequest(gid, data, requests, i);
    UnwrittenSince(gid, data, requests, key, i + 1, n);
  }

  // ----- the answers -----

  /** What request number `i` of a batch answers, and under which identity, if it is carried out. */
  function AnswerAt(gid: nat, data: Data, sn: int, requests: seq<Option<Request>>, i: nat): Option<(int, Response)>
    requires i < |requests|
  {
    match ApplyRequest(gid, ApplyAll(gid, data, requests[..i]), requests[i])
    case Some(a) =>
      var id := requests[i].value.id.value;
      Some((ReqKey(id), Response(sn, id.clientSn, a.value, a.found)))
    case None => None
  }

  /** A table filled in entry by entry, later entries over earlier ones. */
  function Filled<K, V>(entries: seq<Option<(K, V)>>): map<K, V> {
    if entries == [] then map[]
    else
      var table := Filled(entries[..|entries| - 1]);
      match entries[|entries| - 1]
      case Some(e) => table[e.0 := e.1]
      case None => table
  }

  lemma {:induction false} FilledExactly<K, V>(entries: seq<Option<(K, V)>>, k: K)
    ensures k in Filled(entries) <==> exists i :: 0 <= i < |entries| && entries[i].Some? && entries[i].value.0 == k
  {
    if entries != [] {
      var before := entries[..|entries| - 1];
      FilledExactly(before, k);
      assert forall i :: 0 <= i < |before| ==> entries[i] == before[i];
    }
  }

  lemma {:induction false} LastEntryStands<K, V>(entries: seq<Option<(K, V)>>, k: K, v: V, i: nat)
    requires i < |entries| && entries[i] == Some((k, v))
    requires forall j :: i < j < |entries| && entries[j].Some? ==> entries[j].value.0 != k
    ensures k in Filled(entries) && Filled(entries)[k] == v
  {
    if i < |entries| - 1 {
      LastEntryStands(entries[..|entries| - 1], k, v, i);
    }
  }

  /** The answers of a batch are those of its requests, the later ones over the earlier ones. */
  lemma {:induction false} AnswersAreFilled(gid: nat, data: Data, sn: int, requests: seq<Option<Request>>,
                                            entries: seq<Option<(int, Response)>>, n: nat)
    requires n <= |requests| && |entries| == n
    requires forall i :: 0 <= i < n ==> entries[i] == AnswerAt(gid, data, sn, requests, i)
    ensures AnswersOf(gid, data, sn, requests[..n]) == Filled(entries)
  {
    if n > 0 {
      AnswersAreFilled(gid, data, sn, requests, entries[..n - 1], n - 1);
      assert requests[..n][..n - 1] == requests[..n - 1];
    }
  }

  lemma AllAnswers(gid: nat, data: Data, sn: int, requests: seq<Option<Request>>) returns (entries: seq<Option<(int, Response)>>)
    ensures |entries| == |requests| && forall i :: 0 <= i < |entries| ==> entries[i] == AnswerAt(gid, data, sn, requests, i)
    ensures AnswersOf(gid, data, sn, requests) == Filled(entries)
  {
    entries := seq(|requests|, i requires 0 <= i < |requests| => AnswerAt(gid, data, sn, requests, i));
    AnswersAreFilled(gid, data, sn, requests, entries, |requests|);
    assert requests[..|requests|] == requests;
  }

  /** Request number `i` answers under an identity. */
  ghost predicate Answers(gid: nat, data: Data, sn: int, requests: seq<Option<Request>>, id: int, i: nat) {
    i < |requests| && AnswerAt(gid, data, sn, requests, i).Some? && AnswerAt(gid, data, sn, requests, i).value.0 == id
  }

  /** An identity is answered exactly when one of its requests is carried out. */
  lemma AnsweredExactly(gid: nat, data: Data, sn: int, requests: seq<Option<Request>>, id: int)
    ensures id in AnswersOf(gid, data, sn, requests) <==> exists i: nat :: Answers(gid, data, sn, requests, id, i)
  {
    var entries := AllAnswers(gid, data, sn, requests);
    FilledExactly(entries, id);
    if id in Filled(entries) {
      var i :| 0 <= i < |entries| && entries[i].Some? && entries[i].value.0 == id;
      assert Answers(gid, data, sn, requests, id, i);
    }
  }

  /** And the answer is that of the last of them. */
  lemma LastAnswerStands(gid: nat, data: Data, sn: int, requests: seq<Option<Request>>, id: int, answer: Response, i: nat)
    requires i < |requests| && AnswerAt(gid, data, sn, requests, i) == Some((id, answer))
    requires forall j: nat :: i < j ==> !Answers(gid, data, sn, requests, id, j)
    ensures id in AnswersOf(gid, data, sn, requests) && AnswersOf(gid, data, sn, requests)[id] == answer
  {
    var entries := AllAnswers(gid, data, sn, requests);
    forall j | i < j < |entries| && entries[j].Some?
      ensures entries[j].value.0 != id
    {
      assert !Answers(gid, data, sn, requests, id, j);
    }
    LastEntryStands(entries, id, answer, i);
  }

  /** A read in a batch answers what the last put of its key before it has written. */
  lemma ReadsLastWrite(gid: nat, data: Data, sn: int, requests: seq<Option<Request>>, key: string, v: seq<Byte>, w: nat, r: nat)
    requires w < r < |requests| && Carried(requests[r]) == Some(Get(key)) && Carried(requests[w]) == Some(Put(key, v))
    requires Unwritten(gid, requests, key, w + 1, r)
    requires forall j: nat :: r < j ==> !Answers(gid, data, sn, requests, ReqKey(requests[r].value.id.value), j)
    ensures var id := requests[r].value.id.value;
      && ReqKey(id) in AnswersOf(gid, data, sn, requests)
      && AnswersOf(gid, data, sn, requests)[ReqKey(id)] == Response(sn, id.clientSn, v, true)
  {
    var id := requests[r].value.id.value;
    LastWriteWins(gid, data, requests, key, w, r, Some(v));
    assert AnswerAt(gid, data, sn, requests, r) == Some((ReqKey(id), Response(sn, id.clientSn, v, true)));
    LastAnswerStands(gid, data, sn, requests, ReqKey(id), Response(sn, id.clientSn, v, true), r);
  }
}
