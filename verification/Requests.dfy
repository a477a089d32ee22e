/** Client requests as they travel through the orderers and the delivery layer. */
module Requests {
  datatype Option<+T> = None | Some(value: T)

  datatype RequestId = RequestId(clientId: int, clientSn: int)

  /** `gsn` is 0 for a request without a global sequence number. */
  datatype Request = Request(id: Option<RequestId>, payload: string, gsn: nat, touched: seq<nat>)

  /** A cross-group operation: numbered globally and touching more than one group. */
  predicate IsCross(req: Request) {
    req.gsn > 0 && |req.touched| > 1
  }

  /** Prefixes of one sequence are prefixes of each other, one way or the other. */
  lemma PrefixesComparable<T>(a: seq<T>, b: seq<T>, whole: seq<T>)
    requires a <= whole && b <= whole
    ensures a <= b || b <= a
  {
    if |a| <= |b| {
      assert a == b[..|a|];
    } else {
      assert b == a[..|b|];
    }
  }
}

/** The METAs known of GSNs, and how far they reach without a gap. */
module Metas {

  function GroupsOf(meta: map<nat, seq<nat>>, gsn: nat): seq<nat> {
    if gsn in meta then meta[gsn] else []
  }

  predicate InRange(from: nat, to: nat, g: nat) {
    from <= g <= to
  }

  function WithSkips(meta: map<nat, seq<nat>>, cursor: nat, from: nat, to: nat): map<nat, seq<nat>> {
    meta + map g: nat | g <= to && InRange(from, to, g) && g !in meta && g > cursor :: []
  }

  /** After a skip every number of the range above the cursor has an entry, an empty one if it
      had none, and every other number is as before. */
  lemma SkipCovers(meta: map<nat, seq<nat>>, cursor: nat, from: nat, to: nat, g: nat)
    ensures g in WithSkips(meta, cursor, from, to) <==> g in meta || (from <= g <= to && g > cursor)
    ensures g in meta ==> WithSkips(meta, cursor, from, to)[g] == meta[g]
    ensures g !in meta && from <= g <= to && g > cursor ==> WithSkips(meta, cursor, from, to)[g] == []
  {
  }

  // ----- the longest run of consecutive numbers in a set of known GSNs -----

  function Above(known: set<nat>, p: nat): set<nat> {
    set k | k in known && k > p
  }

  /** The end of the run of known numbers that follows `p`. */
  function Extend(known: set<nat>, p: nat): (r: nat)
    ensures IsRunEnd(known, p, r)
    decreases |Above(known, p)|
  {
    if p + 1 in known then
      assert Above(known, p) == Above(known, p + 1) + {p + 1};
      Extend(known, p + 1)
    else p
  }

  predicate IsRunEnd(known: set<nat>, p: nat, r: nat) {
    p <= r && (forall k :: p < k <= r ==> k in known) && r + 1 !in known
  }

  lemma RunEndUnique(known: set<nat>, p: nat, r: nat)
    requires IsRunEnd(known, p, r)
    ensures r == Extend(known, p)
  {
    var e := Extend(known, p);
    assert !(p < r + 1 <= e) && !(p < e + 1 <= r);
  }
}
