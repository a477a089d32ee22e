/** The key-value state of a group: commands applied in delivery order, with balances kept
    as big-endian 64-bit integers. */
module StateMachine {
  import opened Requests
  import opened Command

  type Data = map<string, seq<Byte>>

  // ----- balances -----

  /** Two's-complement wrap-around to 64 bits. */
  function Wrap64(n: int): Int64 {
    (n + 0x8000_0000_0000_0000) % TWO_64 - 0x8000_0000_0000_0000
  }

  function Negate(v: Int64): Int64 {
    var n: int := v;
    Wrap64(-n)
  }

  function Pow256(k: nat): nat {
    if k == 0 then 1 else 256 * Pow256(k - 1)
  }

  function BigEndian(n: nat, k: nat): (b: seq<Byte>)
    ensures |b| == k
  {
    if k == 0 then [] else BigEndian(n / 256, k - 1) + [n % 256]
  }

  function ValueOfBytes(b: seq<Byte>): nat {
    if b == [] then 0 else ValueOfBytes(b[..|b| - 1]) * 256 + b[|b| - 1]
  }

  function EncodeInt64(v: Int64): seq<Byte> {
    BigEndian(v % TWO_64, 8)
  }

  /** A value that is not eight bytes long counts as 0. */
  function DecodeInt64(b: seq<Byte>): Int64 {
    if |b| != 8 then 0 else Wrap64(ValueOfBytes(b))
  }

  lemma {:induction false} BigEndianRoundTrip(n: nat, k: nat)
    requires n < Pow256(k)
    ensures ValueOfBytes(BigEndian(n, k)) == n
  {
    if k > 0 {
      BigEndianRoundTrip(n / 256, k - 1);
      assert BigEndian(n, k)[..k - 1] == BigEndian(n / 256, k - 1);
    }
  }

  lemma Int64RoundTrip(v: Int64)
    ensures DecodeInt64(EncodeInt64(v)) == v
  {
    assert Pow256(8) == TWO_64 by {
      assert Pow256(2) == 0x1_0000;
      assert Pow256(4) == 0x1_0000_0000;
      assert Pow256(6) == 0x1_0000_0000_0000;
    }
    BigEndianRoundTrip(v % TWO_64, 8);
  }

  // ----- one command -----

  function ValueAt(data: Data, key: string): seq<Byte> {
    if key in data then data[key] else []
  }

  function AddBalance(data: Data, key: string, delta: Int64): Data {
    data[key := EncodeInt64(Wrap64(DecodeInt64(ValueAt(data, key)) + delta))]
  }

  /** What a command does to the state, and its answer. */
  datatype Applied = Applied(data: Data, value: seq<Byte>, found: bool)

  /** A transfer debits at its source group and credits at its target group; a group that is
      both only debits. None when the command is not for this group. */
  function Apply(gid: nat, data: Data, c: Command): Option<Applied> {
    match c
    case Put(key, value) => Some(Applied(data[key := value], value, true))
    case Get(key) => Some(Applied(data, ValueAt(data, key), key in data))
    case Delete(key) => Some(Applied(data - {key}, [], key in data))
    case Transfer(fromGroup, fromKey, toGroup, toKey, amount) =>
      if gid == fromGroup then
        var after := AddBalance(data, fromKey, Negate(amount));
        Some(Applied(after, after[fromKey], true))
      else if gid == toGroup then
        var after := AddBalance(data, toKey, amount);
        Some(Applied(after, after[toKey], true))
      else None
  }

  /** What is stored under a key, if anything. */
  function Lookup(data: Data, key: string): Option<seq<Byte>> {
    if key in data then Some(data[key]) else None
  }

  /** One key changes, to a value or to nothing, and no other. */
  ghost predicate Sets(before: Data, after: Data, key: string, v: Option<seq<Byte>>) {
    Lookup(after, key) == v && forall k {:trigger Lookup(after, k)} :: k != key ==> Lookup(after, k) == Lookup(before, k)
  }

  /** What a command does at a group, key by key, and what it answers. */
  ghost predicate IsEffect(gid: nat, c: Command, before: Data, after: Data, done: bool, value: seq<Byte>, found: bool) {
    match c
    case Put(key, v) => done && found && value == v && Sets(before, after, key, Some(v))
    case Get(key) =>
      done && after == before && Lookup(before, key) == (if found then Some(value) else None) && (found || value == [])
    case Delete(key) => done && found == (key in before) && value == [] && Sets(before, after, key, None)
    case Transfer(fromGroup, fromKey, toGroup, toKey, amount) =>
      if gid == fromGroup then done && found && Moves(before, after, fromKey, -(amount as int), value)
      else if gid == toGroup then done && found && Moves(before, after, toKey, amount, value)
      else !done && after == before
  }

  /** The balance of a key, and nothing else, changes by `delta`, with 64-bit wrap-around. */
  ghost predicate Moves(before: Data, after: Data, key: string, delta: int, value: seq<Byte>) {
    && Sets(before, after, key, Some(value))
    && |value| == 8 && DecodeInt64(value) == Wrap64(DecodeInt64(ValueAt(before, key)) + delta)
  }

  lemma AddMovesBalance(data: Data, key: string, delta: Int64, exact: int, after: Data)
    requires after == AddBalance(data, key, delta) && delta == Wrap64(exact)
    ensures Moves(data, after, key, exact, after[key])
  {
    Int64RoundTrip(Wrap64(DecodeInt64(ValueAt(data, key)) + delta));
    WrapAdds(DecodeInt64(ValueAt(data, key)), exact);
  }

  lemma WrapAdds(a: int, b: int)
    ensures Wrap64(a + Wrap64(b)) == Wrap64(a + b)
  {
  }

  lemma WrapWithin(n: Int64)
    ensures Wrap64(n) == n
  {
  }

  /** Every command has its effect, on every state of every group. */
  lemma ApplyIsEffect(gid: nat, data: Data, c: Command, r: Option<Applied>)
    requires r == Apply(gid, data, c)
    ensures match r
      case Some(a) => IsEffect(gid, c, data, a.data, true, a.value, a.found)
      case None => IsEffect(gid, c, data, data, false, [], false)
  {
    if c.Transfer? {
      var n: int := c.amount;
      WrapWithin(c.amount);
      AddMovesBalance(data, c.fromKey, Negate(c.amount), -n, AddBalance(data, c.fromKey, Negate(c.amount)));
      AddMovesBalance(data, c.toKey, c.amount, n, AddBalance(data, c.toKey, c.amount));
    }
  }

  // ----- batches -----

  datatype Response = Response(orderSn: int, clientSn: int, value: seq<Byte>, found: bool)

  function ReqKey(id: RequestId): int {
    id.clientId * 0x1_0000_0000 + id.clientSn % 0x1_0000_0000
  }

  function ApplyRequest(gid: nat, data: Data, req: Option<Request>): Option<Applied> {
    if req == None || req.value.id == None then None
    else
      match DecodeAPICommand(req.value.payload)
      case Some(c) => Apply(gid, data, c)
      case None => None
  }

  /** The state after a batch: every request in order, the unrecognised ones without effect. */
  function ApplyAll(gid: nat, data: Data, requests: seq<Option<Request>>): Data {
    if requests == [] then data
    else
      var before := ApplyAll(gid, data, requests[..|requests| - 1]);
      match ApplyRequest(gid, before, requests[|requests| - 1])
      case Some(a) => a.data
      case None => before
  }

  /** The answers of a batch, the last one for each request identity. */
  function AnswersOf(gid: nat, data: Data, sn: int, requests: seq<Option<Request>>): map<int, Response> {
    if requests == [] then map[]
    else
      var before := requests[..|requests| - 1];
      var answers := AnswersOf(gid, data, sn, before);
      var req := requests[|requests| - 1];
      match ApplyRequest(gid, ApplyAll(gid, data, before), req)
      case Some(a) => answers[ReqKey(req.value.id.value) := Response(sn, req.value.id.value.clientSn, a.value, a.found)]
      case None => answers
  }

  /** The state of a group, updated in place. */
  class GroupState {
    var data: Data

    constructor ()
      ensures data == map[]
    {
      data := map[];
    }

    method PutValue(key: string, value: seq<Byte>) returns (r: seq<Byte>)
      modifies this
      ensures data == old(data)[key := value] && r == value
    {
      data := data[key := value];
      r := value;
    }

    method GetValue(key: string) returns (value: seq<Byte>, found: bool)
      ensures found == (key in data) && value == ValueAt(data, key)
    {
      found := key in data;
      value := if found then data[key] else [];
    }

    method DeleteValue(key: string) returns (existed: bool)
      modifies this
      ensures data == old(data) - {key} && existed == (key in old(data))
    {
      existed := key in data;
      data := data - {key};
    }

    method Add(key: string, delta: Int64) returns (value: seq<Byte>)
      modifies this
      ensures data == AddBalance(old(data), key, delta) && value == data[key]
    {
      var current := if key in data then data[key] else [];
      var next := Wrap64(DecodeInt64(current) + delta);
      data := data[key := EncodeInt64(next)];
      value := data[key];
    }

    method Execute(gid: nat, c: Command) returns (done: bool, value: seq<Byte>, found: bool)
      modifies this
      ensures done == Apply(gid, old(data), c).Some?
      ensures !done ==> data == old(data)
      ensures done ==> Apply(gid, old(data), c) == Some(Applied(data, value, found))
      ensures IsEffect(gid, c, old(data), data, done, value, found)
    {
      ApplyIsEffect(gid, data, c, Apply(gid, data, c));
      done, value, found := true, [], false;
      match c {
        case Put(key, v) =>
          value := PutValue(key, v);
          found := true;
        case Get(key) =>
          value, found := GetValue(key);
        case Delete(key) =>
          found := DeleteValue(key);
        case Transfer(fromGroup, fromKey, toGroup, toKey, amount) =>
          if gid == fromGroup {
            value := Add(fromKey, Negate(amount));
            found := true;
          } else if gid == toGroup {
            value := Add(toKey, amount);
            found := true;
          } else {
            done := false;
          }
      }
    }

    method ApplyBatch(gid: nat, sn: int, requests: seq<Option<Request>>) returns (answers: map<int, Response>)
      modifies this
      ensures data == ApplyAll(gid, old(data), requests)
      ensures answers == AnswersOf(gid, old(data), sn, requests)
    {
      answers := map[];
      for i := 0 to |requests|
        invariant data == ApplyAll(gid, old(data), requests[..i])
        invariant answers == AnswersOf(gid, old(data), sn, requests[..i])
      {
        assert requests[..i + 1][..i] == requests[..i];
        if requests[i] == None || requests[i].value.id == None {
          continue;
        }
        var id := requests[i].value.id.value;
        var c := DecodeAPICommand(requests[i].value.payload);
        if c == None {
          continue;
        }
        var done, value, found := Execute(gid, c.value);
        if !done {
          continue;
        }
        answers := answers[ReqKey(id) := Response(sn, id.clientSn, value, found)];
      }
      assert requests[..|requests|] == requests;
    }
  }

  /** Request identities made of 32-bit numbers have different keys. */
  lemma ReqKeyInjective(a: RequestId, b: RequestId)
    requires -0x8000_0000 <= a.clientSn < 0x8000_0000 && -0x8000_0000 <= b.clientSn < 0x8000_0000
    requires ReqKey(a) == ReqKey(b)
    ensures a == b
  {
    assert a.clientId == ReqKey(a) / 0x1_0000_0000 && b.clientId == ReqKey(b) / 0x1_0000_0000;
  }

  // ----- batching does not matter -----

  function Flatten(batches: seq<seq<Option<Request>>>): seq<Option<Request>> {
    if batches == [] then [] else Flatten(batches[..|batches| - 1]) + batches[|batches| - 1]
  }

  function ApplyBatches(gid: nat, data: Data, batches: seq<seq<Option<Request>>>): Data {
    if batches == [] then data
    else ApplyAll(gid, ApplyBatches(gid, data, batches[..|batches| - 1]), batches[|batches| - 1])
  }

  lemma {:induction false} ApplyConcat(gid: nat, data: Data, a: seq<Option<Request>>, b: seq<Option<Request>>)
    ensures ApplyAll(gid, data, a + b) == ApplyAll(gid, ApplyAll(gid, data, a), b)
  {
    if b == [] {
      assert a + b == a;
    } else {
      assert (a + b)[..|a + b| - 1] == a + b[..|b| - 1];
      ApplyConcat(gid, data, a, b[..|b| - 1]);
    }
  }

  /** However the delivered requests are split into batches, the state is the same. */
  lemma {:induction false} BatchingIrrelevant(gid: nat, data: Data, batches: seq<seq<Option<Request>>>)
    ensures ApplyBatches(gid, data, batches) == ApplyAll(gid, data, Flatten(batches))
  {
    if batches != [] {
      BatchingIrrelevant(gid, data, batches[..|batches| - 1]);
      ApplyConcat(gid, data, Flatten(batches[..|batches| - 1]), batches[|batches| - 1]);
    }
  }
}
