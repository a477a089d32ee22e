/** The GSNs a sequencer knows nothing about, as ranges, and the text in which votes carry them. */
module MetaHoles {
  import opened Requests
  import opened Command

  /** At most this many GSNs below the highest known one are examined. */
  const MAX_HOLE_SCAN := 200000

  /** At most this many ranges are sent. */
  const MAX_RANGES := 512

  datatype Range = Range(from: nat, to: nat)

  predicate Within(r: Range, g: int) {
    r.from <= g <= r.to
  }

  ghost predicate Covers(rs: seq<Range>, g: int) {
    exists i :: 0 <= i < |rs| && Within(rs[i], g)
  }

  /** Ascending, disjoint and not even adjacent. */
  predicate Separated(rs: seq<Range>) {
    && (forall i :: 0 <= i < |rs| ==> rs[i].from <= rs[i].to)
    && (forall i :: 0 <= i < |rs| - 1 ==> rs[i].to + 1 < rs[i + 1].from)
  }

  /** Adds a GSN above all the ranges. */
  function Added(rs: seq<Range>, g: nat): seq<Range> {
    if |rs| > 0 && rs[|rs| - 1].to + 1 == g
    then rs[|rs| - 1 := Range(rs[|rs| - 1].from, g)]
    else rs + [Range(g, g)]
  }

  ghost predicate IsHole(known: set<nat>, skips: seq<Range>, g: nat) {
    g !in known && !Covers(skips, g)
  }

  /** The holes from `from` up to but not including `end`. */
  ghost function Holes(known: set<nat>, skips: seq<Range>, from: nat, end: nat): seq<Range> {
    if end <= from then []
    else
      var before := Holes(known, skips, from, end - 1);
      if IsHole(known, skips, end - 1) then Added(before, end - 1) else before
  }

  function ScanFrom(upTo: nat): nat {
    if upTo > MAX_HOLE_SCAN then upTo - MAX_HOLE_SCAN + 1 else 1
  }

  method InRanges(rs: seq<Range>, g: nat) returns (yes: bool)
    ensures yes <==> Covers(rs, g)
  {
    for i := 0 to |rs|
      invariant forall j :: 0 <= j < i ==> !Within(rs[j], g)
    {
      if g >= rs[i].from && g <= rs[i].to {
        assert Within(rs[i], g);
        return true;
      }
    }
    return false;
  }

  /** The GSNs up to `upTo` with no known META and in no skipped range. */
  method FindHoles(known: set<nat>, skips: seq<Range>, upTo: nat) returns (out: seq<Range>)
    ensures out == Holes(known, skips, ScanFrom(upTo), upTo + 1)
  {
    out := [];
    if upTo == 0 {
      return;
    }
    var from := 1;
    if upTo > MAX_HOLE_SCAN {
      from := upTo - MAX_HOLE_SCAN + 1;
    }
    for g := from to upTo + 1
      invariant out == Holes(known, skips, from, g)
    {
      var skipped := InRanges(skips, g);
      if g in known || skipped {
        continue;
      }
      out := Added(out, g);
    }
  }

  // ----- the ranges are exact -----

  ghost predicate Below(rs: seq<Range>, end: nat) {
    forall i :: 0 <= i < |rs| ==> rs[i].to < end
  }

  lemma AddedKeeps(rs: seq<Range>, g: nat)
    requires Separated(rs) && Below(rs, g)
    ensures Separated(Added(rs, g)) && Below(Added(rs, g), g + 1)
  {
  }

  lemma AddedCovers(rs: seq<Range>, g: nat, x: int)
    requires Separated(rs) && Below(rs, g)
    ensures Covers(Added(rs, g), x) <==> Covers(rs, x) || x == g
  {
    var out := Added(rs, g);
    if Covers(rs, x) {
      var i :| 0 <= i < |rs| && Within(rs[i], x);
      assert Within(out[i], x);
    }
    assert Within(out[|out| - 1], g);
    if Covers(out, x) && x != g {
      var i :| 0 <= i < |out| && Within(out[i], x);
      assert Within(rs[i], x);
    }
  }

  lemma {:induction false} HolesSeparated(known: set<nat>, skips: seq<Range>, from: nat, end: nat)
    ensures Separated(Holes(known, skips, from, end)) && Below(Holes(known, skips, from, end), end)
  {
    if from < end {
      HolesSeparated(known, skips, from, end - 1);
      AddedKeeps(Holes(known, skips, from, end - 1), end - 1);
    }
  }

  lemma {:induction false} HolesCover(known: set<nat>, skips: seq<Range>, from: nat, end: nat, g: nat)
    ensures Covers(Holes(known, skips, from, end), g) <==> from <= g < end && IsHole(known, skips, g)
  {
    if from < end {
      HolesCover(known, skips, from, end - 1, g);
      HolesSeparated(known, skips, from, end - 1);
      AddedCovers(Holes(known, skips, from, end - 1), end - 1, g);
    }
  }

  /** The ranges are ascending, disjoint and not adjacent, and cover exactly the GSNs, among the
      200000 up to `upTo` and from 1 on, that have no META and are in no skipped range. */
  lemma HolesAreExact(known: set<nat>, skips: seq<Range>, upTo: nat, g: nat)
    ensures var holes := Holes(known, skips, ScanFrom(upTo), upTo + 1);
      Separated(holes) && (Covers(holes, g) <==> 1 <= g <= upTo < g + 200000 && IsHole(known, skips, g))
  {
    HolesSeparated(known, skips, ScanFrom(upTo), upTo + 1);
    HolesCover(known, skips, ScanFrom(upTo), upTo + 1, g);
  }

  lemma CoversTail(rs: seq<Range>, g: int)
    requires Separated(rs) && rs != []
    ensures Separated(rs[1..])
    ensures Covers(rs[1..], g) <==> Covers(rs, g) && g > rs[0].to
    ensures Covers(rs, g) ==> g >= rs[0].from
    ensures !Covers(rs, rs[0].to + 1) && Covers(rs, rs[0].from) && (Within(rs[0], g) ==> Covers(rs, g))
  {
    assert Within(rs[0], rs[0].from);
    RangesAscend(rs);
    if Covers(rs[1..], g) {
      var i :| 0 <= i < |rs| - 1 && Within(rs[1..][i], g);
      assert Within(rs[i + 1], g);
    }
    if Covers(rs, g) && g > rs[0].to {
      var i :| 0 <= i < |rs| && Within(rs[i], g);
      assert Within(rs[1..][i - 1], g);
    }
  }

  lemma {:induction false} RangesAscend(rs: seq<Range>)
    requires Separated(rs) && rs != []
    ensures forall i :: 0 < i < |rs| ==> rs[i].from > rs[0].to + 1
  {
    if |rs| > 1 {
      RangesAscend(rs[1..]);
      forall i | 0 < i < |rs|
        ensures rs[i].from > rs[0].to + 1
      {
        if i > 1 {
          assert rs[1..][i - 1].from > rs[1..][0].to + 1;
        }
      }
    }
  }

  /** No other such list covers the same GSNs. */
  lemma {:induction false} SeparatedUnique(a: seq<Range>, b: seq<Range>)
    requires Separated(a) && Separated(b)
    requires forall g {:trigger Covers(a, g)} {:trigger Covers(b, g)} :: Covers(a, g) <==> Covers(b, g)
    ensures a == b
  {
    if a == [] {
      if b != [] {
        CoversTail(b, b[0].from);
      }
    } else if b == [] {
      CoversTail(a, a[0].from);
    } else {
      SameFirst(a, b);
      forall g
        ensures Covers(a[1..], g) <==> Covers(b[1..], g)
      {
        CoversTail(a, g);
        CoversTail(b, g);
      }
      CoversTail(a, 0);
      CoversTail(b, 0);
      SeparatedUnique(a[1..], b[1..]);
      assert a == [a[0]] + a[1..] && b == [b[0]] + b[1..];
    }
  }

  lemma SameFirst(a: seq<Range>, b: seq<Range>)
    requires Separated(a) && Separated(b) && a != [] && b != []
    requires forall g {:trigger Covers(a, g)} {:trigger Covers(b, g)} :: Covers(a, g) <==> Covers(b, g)
    ensures a[0] == b[0]
  {
    CoversTail(a, b[0].from);
    CoversTail(b, a[0].from);
    CoversTail(a, b[0].to + 1);
    CoversTail(b, a[0].to + 1);
    assert Covers(a, b[0].from) && Covers(b, a[0].from);
    assert !Covers(a, b[0].to + 1) && !Covers(b, a[0].to + 1);
  }

  // ----- the text of ranges -----

  predicate Fits(r: Range) {
    r.from < TWO_64 && r.to < TWO_64
  }

  predicate Valid(r: Range) {
    r.from > 0 && r.to >= r.from
  }

  function FormatRange(r: Range): string {
    FormatUint(r.from) + "-" + FormatUint(r.to)
  }

  function Join(parts: seq<string>): string {
    if parts == [] then "" else if |parts| == 1 then parts[0] else parts[0] + "," + Join(parts[1..])
  }

  function UpToComma(s: string): (k: nat)
    ensures k <= |s|
    ensures ',' !in s[..k] && (k < |s| ==> s[k] == ',')
  {
    if s == "" || s[0] == ',' then 0 else 1 + UpToComma(s[1..])
  }

  /** The parts between commas; the empty text is one empty part. */
  function Split(s: string): seq<string>
    decreases |s|
  {
    var k := UpToComma(s);
    if k == |s| then [s] else [s[..k]] + Split(s[k + 1..])
  }

  function DigitRun(s: string): (k: nat)
    ensures k <= |s| && (forall i :: 0 <= i < k ==> IsDigit(s[i])) && (k < |s| ==> !IsDigit(s[k]))
  {
    if s == "" || !IsDigit(s[0]) then 0 else 1 + DigitRun(s[1..])
  }

  /** A 64-bit number at the beginning of a text, and what follows it. */
  function ScanUint(s: string): Option<(nat, string)> {
    var k := DigitRun(s);
    if k == 0 || ValueOf(s[..k]) >= TWO_64 then None else Some((ValueOf(s[..k]), s[k..]))
  }

  /** Two numbers with a dash between them; what follows them is ignored. */
  function ScanRange(p: string): Option<Range> {
    match ScanUint(p)
    case None => None
    case Some((from, rest)) =>
      if rest == "" || rest[0] != '-' then None
      else
        match ScanUint(rest[1..])
        case None => None
        case Some((to, _)) => Some(Range(from, to))
  }

  /** The ranges that are kept when there are too many. */
  function LastRanges(rs: seq<Range>): seq<Range> {
    if |rs| > MAX_RANGES then rs[|rs| - MAX_RANGES..] else rs
  }

  function FormatAll(rs: seq<Range>): (parts: seq<string>)
    ensures |parts| == |rs| && forall i :: 0 <= i < |rs| ==> parts[i] == FormatRange(rs[i])
  {
    seq(|rs|, i requires 0 <= i < |rs| => FormatRange(rs[i]))
  }

  function EncodeRanges(rs: seq<Range>): string {
    Join(FormatAll(LastRanges(rs)))
  }

  /** The parts that are ranges of GSNs, the others left out. */
  function RangesIn(parts: seq<string>): seq<Range> {
    if parts == [] then []
    else
      RangesIn(parts[..|parts| - 1]) + RangeIn(parts[|parts| - 1])
  }

  function RangeIn(part: string): seq<Range> {
    match ScanRange(part)
    case Some(r) => if Valid(r) then [r] else []
    case None => []
  }

  function DecodeRanges(s: string): seq<Range> {
    RangesIn(Split(s))
  }

  method WriteRanges(rs: seq<Range>) returns (s: string)
    ensures s == EncodeRanges(rs)
  {
    var kept := rs;
    if |kept| > MAX_RANGES {
      kept := kept[|kept| - MAX_RANGES..];
    }
    var parts: seq<string> := [];
    for i := 0 to |kept|
      invariant |parts| == i && forall j :: 0 <= j < i ==> parts[j] == FormatRange(kept[j])
    {
      parts := parts + [FormatUint(kept[i].from) + "-" + FormatUint(kept[i].to)];
    }
    assert parts == FormatAll(kept);
    s := Join(parts);
  }

  method ReadRanges(s: string) returns (out: seq<Range>)
    ensures out == DecodeRanges(s)
  {
    var parts := Split(s);
    out := [];
    for i := 0 to |parts|
      invariant out == RangesIn(parts[..i])
    {
      assert parts[..i + 1][..i] == parts[..i];
      var r := ScanRange(parts[i]);
      assert out + [] == out;
      if r.Some? && r.value.from > 0 && r.value.to >= r.value.from {
        out := out + [r.value];
      }
    }
    assert parts[..|parts|] == parts;
  }

  // ----- round trip -----

  lemma {:induction false} DigitRunOf(digits: string, rest: string)
    requires forall i :: 0 <= i < |digits| ==> IsDigit(digits[i])
    requires rest == "" || !IsDigit(rest[0])
    ensures DigitRun(digits + rest) == |digits|
  {
    if digits == "" {
      assert digits + rest == rest;
    } else {
      assert (digits + rest)[1..] == digits[1..] + rest;
      DigitRunOf(digits[1..], rest);
    }
  }

  lemma ScanUintOf(n: nat, rest: string)
    requires n < TWO_64 && (rest == "" || !IsDigit(rest[0]))
    ensures ScanUint(FormatUint(n) + rest) == Some((n, rest))
  {
    var digits := FormatUint(n);
    DigitRunOf(digits, rest);
    ValueOfFormat(n);
    assert (digits + rest)[..|digits|] == digits && (digits + rest)[|digits|..] == rest;
  }

  lemma ScanRangeOf(r: Range)
    requires Fits(r)
    ensures ScanRange(FormatRange(r)) == Some(r)
  {
    var rest := "-" + FormatUint(r.to);
    assert FormatRange(r) == FormatUint(r.from) + rest;
    ScanUintOf(r.from, rest);
    assert rest[1..] == FormatUint(r.to) + "";
    ScanUintOf(r.to, "");
  }

  lemma RangeHasNoComma(r: Range)
    ensures ',' !in FormatRange(r)
  {
    assert forall c :: c in FormatUint(r.from) ==> IsDigit(c);
    assert forall c :: c in FormatUint(r.to) ==> IsDigit(c);
  }

  lemma {:induction false} UpToCommaOf(w: string, rest: string)
    requires ',' !in w && (rest == "" || rest[0] == ',')
    ensures UpToComma(w + rest) == |w|
  {
    if w == "" {
      assert w + rest == rest;
    } else {
      assert (w + rest)[1..] == w[1..] + rest;
      UpToCommaOf(w[1..], rest);
    }
  }

  lemma {:induction false} SplitOfJoin(parts: seq<string>)
    requires parts != [] && forall i :: 0 <= i < |parts| ==> ',' !in parts[i]
    ensures Split(Join(parts)) == parts
  {
    if |parts| == 1 {
      UpToCommaOf(parts[0], "");
      assert parts[0] + "" == parts[0];
    } else {
      var rest := "," + Join(parts[1..]);
      assert Join(parts) == parts[0] + rest;
      UpToCommaOf(parts[0], rest);
      assert (parts[0] + rest)[..|parts[0]|] == parts[0];
      assert (parts[0] + rest)[|parts[0]| + 1..] == Join(parts[1..]);
      SplitOfJoin(parts[1..]);
    }
  }

  function ValidOnes(rs: seq<Range>): seq<Range> {
    if rs == [] then [] else ValidOnes(rs[..|rs| - 1]) + if Valid(rs[|rs| - 1]) then [rs[|rs| - 1]] else []
  }

  lemma RangeInFormatted(r: Range)
    requires Fits(r)
    ensures RangeIn(FormatRange(r)) == if Valid(r) then [r] else []
  {
    ScanRangeOf(r);
  }

  lemma {:induction false} RangesInFormatted(rs: seq<Range>)
    requires forall i :: 0 <= i < |rs| ==> Fits(rs[i])
    ensures RangesIn(FormatAll(rs)) == ValidOnes(rs)
  {
    if rs != [] {
      var before, last := rs[..|rs| - 1], rs[|rs| - 1];
      RangesInFormatted(before);
      assert FormatAll(rs)[..|rs| - 1] == FormatAll(before);
      RangeInFormatted(last);
    }
  }

  lemma {:induction false} ValidOnesAreAll(rs: seq<Range>)
    requires forall i :: 0 <= i < |rs| ==> Valid(rs[i])
    ensures ValidOnes(rs) == rs
  {
    if rs != [] {
      ValidOnesAreAll(rs[..|rs| - 1]);
    }
  }

  /** For every list of 64-bit ranges, what is decoded are the valid ones among the last 512. */
  lemma DecodeOfEncode(rs: seq<Range>, kept: seq<Range>)
    requires forall i :: 0 <= i < |rs| ==> Fits(rs[i])
    requires kept == if |rs| > 512 then rs[|rs| - 512..] else rs
    ensures DecodeRanges(EncodeRanges(rs)) == ValidOnes(kept)
  {
    DecodeOfKept(kept);
  }

  lemma EmptyText()
    ensures DecodeRanges("") == []
  {
    assert Split("") == [""];
    assert [""][..0] == [];
  }

  lemma DecodeOfKept(kept: seq<Range>)
    requires forall i :: 0 <= i < |kept| ==> Fits(kept[i])
    ensures DecodeRanges(Join(FormatAll(kept))) == ValidOnes(kept)
  {
    if kept == [] {
      assert FormatAll(kept) == [];
      EmptyText();
    } else {
      forall i | 0 <= i < |kept|
        ensures ',' !in FormatAll(kept)[i]
      {
        RangeHasNoComma(kept[i]);
      }
      SplitOfJoin(FormatAll(kept));
      RangesInFormatted(kept);
    }
  }

  /** The holes of a sequencer arrive as they were sent, if there are no more than 512 ranges. */
  lemma HolesRoundTrip(known: set<nat>, skips: seq<Range>, upTo: nat, holes: seq<Range>)
    requires upTo < TWO_64 && holes == Holes(known, skips, ScanFrom(upTo), upTo + 1) && |holes| <= 512
    ensures DecodeRanges(EncodeRanges(holes)) == holes
  {
    HolesSeparated(known, skips, ScanFrom(upTo), upTo + 1);
    forall i | 0 <= i < |holes|
      ensures Fits(holes[i]) && Valid(holes[i])
    {
      assert Within(holes[i], holes[i].from);
      HolesCover(known, skips, ScanFrom(upTo), upTo + 1, holes[i].from);
    }
    DecodeOfEncode(holes, holes);
    ValidOnesAreAll(holes);
  }
}
