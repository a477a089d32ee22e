/** How long the backoff policy keeps a suspect out, over any run of suspicions: the period
    doubles with each suspicion, and the ban ends when it is over, earlier only by the rounds
    in which all bans were shortened because an epoch would have had no leader. */
module BackoffBans {
  import opened Quorums
  import opened Buckets
  import opened LeaderPolicies

  /** A period doubled `n` times, as an exact number. */
  function Doubled(period: int, n: nat): int {
    if n == 0 then period else 2 * Doubled(period, n - 1)
  }

  /** How often a node is suspected in a run. */
  function TimesSuspected(run: seq<Suspicion>, p: int): nat {
    if run == [] then 0 else TimesSuspected(run[..|run| - 1], p) + if run[|run| - 1].suspect == p then 1 else 0
  }

  /** How many times the bans must be shortened until the epoch after `e` has a leader. */
  function Rounds(nodes: seq<int>, until: map<int, Int32>, e: Epoch): nat
    requires Relaxes(nodes, until, e)
    decreases Wait(nodes, until, e)
  {
    if Leaders(nodes, until, Later(e)) != [] then 0
    else
      ShortenedOnce(nodes, until, e);
      1 + Rounds(nodes, Shorten(until), e)
  }

  lemma {:induction false} ShortenFirst(until: map<int, Int32>, k: nat)
    ensures ShortenedBy(Shorten(until), k) == ShortenedBy(until, k + 1)
  {
    if k == 0 {
      assert ShortenedBy(until, 1) == Shorten(ShortenedBy(until, 0));
    } else {
      ShortenFirst(until, k - 1);
    }
  }

  lemma RoundsUnfold(nodes: seq<int>, until: map<int, Int32>, e: Epoch, shorter: map<int, Int32>)
    requires Relaxes(nodes, until, e) && Leaders(nodes, until, Later(e)) == [] && shorter == Shorten(until)
    ensures Relaxes(nodes, shorter, e) && Wait(nodes, shorter, e) < Wait(nodes, until, e)
    ensures Rounds(nodes, until, e) == 1 + Rounds(nodes, shorter, e)
    ensures Relaxed(nodes, until, e) == Relaxed(nodes, shorter, e)
  {
    ShortenedOnce(nodes, until, e);
  }

  /** The bans are shortened by that many rounds. */
  lemma {:induction false} RoundsAreEnough(nodes: seq<int>, until: map<int, Int32>, e: Epoch, k: nat)
    requires Relaxes(nodes, until, e) && k == Rounds(nodes, until, e)
    ensures Relaxed(nodes, until, e) == ShortenedBy(until, k) && Leaders(nodes, ShortenedBy(until, k), Later(e)) != []
    decreases Wait(nodes, until, e)
  {
    if Leaders(nodes, until, Later(e)) == [] {
      RoundsUnfold(nodes, until, e, Shorten(until));
      RoundsAreEnough(nodes, Shorten(until), e, k - 1);
      ShortenFirst(until, k - 1);
    }
  }

  /** And no fewer rounds are enough. */
  lemma {:induction false} RoundsAreLeast(nodes: seq<int>, until: map<int, Int32>, e: Epoch, j: nat)
    requires Relaxes(nodes, until, e) && j < Rounds(nodes, until, e)
    ensures Leaders(nodes, ShortenedBy(until, j), Later(e)) == []
    decreases j
  {
    if j > 0 {
      RoundsUnfold(nodes, until, e, Shorten(until));
      RoundsAreLeast(nodes, Shorten(until), e, j - 1);
      ShortenFirst(until, j - 1);
    }
  }

  lemma WrapLess(a: int, n: Int32)
    requires n == Wrap32(a)
    ensures Less(n) == Wrap32(a - 1)
  {
  }

  lemma Wraps(n: Int32)
    ensures Wrap32(n) == n
  {
  }

  /** Shortening counts down, in 32 bits. */
  lemma {:induction false} ShortenedAt(until: map<int, Int32>, k: nat, q: int)
    ensures q in ShortenedBy(until, k) <==> q in until
    ensures q in until ==> ShortenedBy(until, k)[q] == Wrap32(until[q] - k)
  {
    if k > 0 {
      ShortenedAt(until, k - 1, q);
      if q in until {
        WrapLess(until[q] - (k - 1), ShortenedBy(until, k - 1)[q]);
      }
    } else if q in until {
      Wraps(until[q]);
    }
  }

  // ----- one suspicion -----

  /** The rounds by which the bans were shortened on the last suspicion of a run. */
  function LastRounds(nodes: seq<int>, defaultBan: Int32, run: seq<Suspicion>): nat
    requires nodes != [] && InTime(run) && run != []
  {
    var last, before := run[|run| - 1], BansAfter(nodes, defaultBan, run[..|run| - 1]);
    Rounds(nodes, Suspected(before, last.epoch, last.suspect, defaultBan).until, last.epoch)
  }

  lemma LastBans(nodes: seq<int>, defaultBan: Int32, run: seq<Suspicion>, before: Bans, raised: Bans, k: nat)
    requires nodes != [] && InTime(run) && run != [] && before == BansAfter(nodes, defaultBan, run[..|run| - 1])
    requires raised == Suspected(before, run[|run| - 1].epoch, run[|run| - 1].suspect, defaultBan)
    requires k == LastRounds(nodes, defaultBan, run)
    ensures BansAfter(nodes, defaultBan, run) == Bans(raised.ban, ShortenedBy(raised.until, k))
  {
    RoundsAreEnough(nodes, raised.until, run[|run| - 1].epoch, k);
  }

  // ----- 32-bit arithmetic -----

  lemma WrapShift(n: int, q: int)
    ensures Wrap32(n + 0x1_0000_0000 * q) == Wrap32(n)
  {
  }

  lemma WrapBy(n: int) returns (q: int)
    ensures Wrap32(n) == n + 0x1_0000_0000 * q
  {
    q := -((n + 0x8000_0000) / 0x1_0000_0000);
  }

  lemma WrapMinus(n: int, k: int)
    ensures Wrap32(Wrap32(n) - k) == Wrap32(n - k)
  {
    var q := WrapBy(n);
    WrapShift(n - k, q);
  }

  lemma WrapPlus(a: int, b: int)
    ensures Wrap32(a + Wrap32(b)) == Wrap32(a + b)
  {
    var q := WrapBy(b);
    WrapShift(a + b, q);
  }

  lemma BanEnds(e: int, period: int, b: Int32, k: int)
    requires b == Wrap32(period)
    ensures Wrap32(Wrap32(e + b) - k) == Wrap32(e + period - k)
  {
    WrapPlus(e, period);
    WrapMinus(e + period, k);
  }

  lemma WrapTwice(n: int, b: Int32)
    requires b == Wrap32(n)
    ensures Twice(b) == Wrap32(2 * n)
  {
    var q := WrapBy(n);
    WrapShift(2 * n, 2 * q);
  }

  // ----- one node's ban -----

  /** What is recorded of a node. */
  datatype Record = Never | Banned(period: Int32, until: Int32)

  predicate Records(s: Bans, p: int, r: Record) {
    match r
    case Never => p !in s.ban && p !in s.until
    case Banned(period, until) => p in s.ban && s.ban[p] == period && p in s.until && s.until[p] == until
  }

  /** The rounds of shortening on each suspicion of a run. */
  function RoundsOf(nodes: seq<int>, defaultBan: Int32, run: seq<Suspicion>): (r: seq<nat>)
    requires nodes != [] && InTime(run)
    ensures |r| == |run|
  {
    if run == [] then [] else RoundsOf(nodes, defaultBan, run[..|run| - 1]) + [LastRounds(nodes, defaultBan, run)]
  }

  /** A node's record after one more suspicion, of whom it may be, and `k` rounds of shortening. */
  function NextRecord(r: Record, e: Suspicion, k: nat, defaultBan: Int32, p: int): Record {
    match r
    case Never => if e.suspect == p then Banned(defaultBan, Wrap32(Wrap32(e.epoch + defaultBan) - k)) else Never
    case Banned(period, until) =>
      if e.suspect == p then Banned(Twice(period), Wrap32(Wrap32(e.epoch + Twice(period)) - k))
      else Banned(period, Wrap32(until - k))
  }

  /** A node's record after a run with these rounds of shortening. */
  function RecordOf(defaultBan: Int32, run: seq<Suspicion>, rounds: seq<nat>, p: int): Record
    requires |rounds| == |run|
  {
    if run == [] then Never
    else
      var last := |run| - 1;
      NextRecord(RecordOf(defaultBan, run[..last], rounds[..last], p), run[last], rounds[last], defaultBan, p)
  }

  /** A suspicion bans its suspect until the end of its period, and does nothing to the others;
      then all bans are shortened. */
  lemma OneMoreRecord(s0: Bans, e: Suspicion, raised: Bans, k: nat, s: Bans, defaultBan: Int32, p: int, r0: Record, r: Record)
    requires raised == Suspected(s0, e.epoch, e.suspect, defaultBan) && s == Bans(raised.ban, ShortenedBy(raised.until, k))
    requires Records(s0, p, r0) && r == NextRecord(r0, e, k, defaultBan, p)
    ensures Records(s, p, r)
  {
    ShortenedAt(raised.until, k, p);
  }

  lemma {:induction false} RecordIsRecorded(nodes: seq<int>, defaultBan: Int32, run: seq<Suspicion>, p: int, s: Bans,
                                            rounds: seq<nat>)
    requires nodes != [] && InTime(run) && s == BansAfter(nodes, defaultBan, run) && rounds == RoundsOf(nodes, defaultBan, run)
    ensures Records(s, p, RecordOf(defaultBan, run, rounds, p))
  {
    if run != [] {
      var last := |run| - 1;
      var s0 := BansAfter(nodes, defaultBan, run[..last]);
      assert rounds[..last] == RoundsOf(nodes, defaultBan, run[..last]);
      RecordIsRecorded(nodes, defaultBan, run[..last], p, s0, rounds[..last]);
      var raised := Suspected(s0, run[last].epoch, run[last].suspect, defaultBan);
      LastBans(nodes, defaultBan, run, s0, raised, rounds[last]);
      OneMoreRecord(s0, run[last], raised, rounds[last], s, defaultBan, p, RecordOf(defaultBan, run[..last], rounds[..last], p),
                    RecordOf(defaultBan, run, rounds, p));
    }
  }

  lemma {:induction false} RecordedPeriod(defaultBan: Int32, run: seq<Suspicion>, rounds: seq<nat>, p: int)
    requires |rounds| == |run|
    ensures TimesSuspected(run, p) == 0 ==> RecordOf(defaultBan, run, rounds, p) == Never
    ensures TimesSuspected(run, p) > 0 ==>
      && RecordOf(defaultBan, run, rounds, p).Banned?
      && RecordOf(defaultBan, run, rounds, p).period == Wrap32(Doubled(defaultBan, TimesSuspected(run, p) - 1))
  {
    if run != [] {
      RecordedPeriod(defaultBan, run[..|run| - 1], rounds[..|run| - 1], p);
      if run[|run| - 1].suspect == p {
        DoubledOnce(defaultBan, TimesSuspected(run[..|run| - 1], p));
      }
    }
  }

  lemma DoubledOnce(defaultBan: Int32, n: nat)
    ensures n == 0 ==> defaultBan == Wrap32(Doubled(defaultBan, n))
    ensures n > 0 ==> Twice(Wrap32(Doubled(defaultBan, n - 1))) == Wrap32(Doubled(defaultBan, n))
  {
    if n == 0 {
      Wraps(defaultBan);
    } else {
      WrapTwice(Doubled(defaultBan, n - 1), Wrap32(Doubled(defaultBan, n - 1)));
    }
  }

  function SumFrom(rounds: seq<nat>, i: nat): nat {
    if |rounds| <= i then 0 else SumFrom(rounds[..|rounds| - 1], i) + rounds[|rounds| - 1]
  }

  predicate LastOf(run: seq<Suspicion>, i: nat, p: int) {
    i < |run| && run[i].suspect == p && forall j :: i < j < |run| ==> run[j].suspect != p
  }

  /** When the period of suspicion number `i` of a run ends, as an exact number. */
  function PeriodEnd(defaultBan: Int32, run: seq<Suspicion>, i: nat): int
    requires i < |run|
  {
    run[i].epoch + Doubled(defaultBan, TimesSuspected(run[..i], run[i].suspect))
  }

  lemma {:induction false} RecordedUntil(defaultBan: Int32, run: seq<Suspicion>, rounds: seq<nat>, i: nat, p: int, end: int)
    requires |rounds| == |run| && LastOf(run, i, p) && end == PeriodEnd(defaultBan, run, i) - SumFrom(rounds, i)
    ensures RecordOf(defaultBan, run, rounds, p).Banned? && RecordOf(defaultBan, run, rounds, p).until == Wrap32(end)
  {
    var last := |run| - 1;
    if i < last {
      assert run[..last][..i] == run[..i];
      RecordedUntil(defaultBan, run[..last], rounds[..last], i, p, end + rounds[last]);
      WrapMinus(end + rounds[last], rounds[last]);
    } else {
      RecordedNow(defaultBan, run, rounds, p, end + rounds[last]);
    }
  }

  lemma RecordedNow(defaultBan: Int32, run: seq<Suspicion>, rounds: seq<nat>, p: int, end: int)
    requires |rounds| == |run| > 0 && run[|run| - 1].suspect == p && end == PeriodEnd(defaultBan, run, |run| - 1)
    ensures RecordOf(defaultBan, run, rounds, p).Banned?
    ensures RecordOf(defaultBan, run, rounds, p).until == Wrap32(end - rounds[|run| - 1])
  {
    var last := |run| - 1;
    var r := RecordOf(defaultBan, run, rounds, p);
    RecordedPeriod(defaultBan, run, rounds, p);
    assert r.until == Wrap32(Wrap32(run[last].epoch + r.period) - rounds[last]);
    BanEnds(run[last].epoch, Doubled(defaultBan, TimesSuspected(run[..last], p)), r.period, rounds[last]);
  }

  // ----- any run -----

  /** A node's period is the default ban doubled once for each earlier suspicion of it, in 32
      bits; a node never suspected has none, and is not banned. */
  lemma PeriodDoubles(nodes: seq<int>, defaultBan: Int32, run: seq<Suspicion>, p: int, s: Bans)
    requires nodes != [] && InTime(run) && s == BansAfter(nodes, defaultBan, run)
    ensures TimesSuspected(run, p) == 0 ==> p !in s.ban && p !in s.until
    ensures TimesSuspected(run, p) > 0 ==>
      p in s.until && p in s.ban && s.ban[p] == Wrap32(Doubled(defaultBan, TimesSuspected(run, p) - 1))
  {
    var rounds := RoundsOf(nodes, defaultBan, run);
    RecordIsRecorded(nodes, defaultBan, run, p, s, rounds);
    RecordedPeriod(defaultBan, run, rounds, p);
  }

  /** After its last suspicion, whoever else was suspected since, a node is banned until the end
      of its period less the rounds by which the bans were shortened since, in 32 bits. */
  lemma BannedUntil(nodes: seq<int>, defaultBan: Int32, run: seq<Suspicion>, i: nat, p: int, s: Bans, rounds: seq<nat>, end: int)
    requires nodes != [] && InTime(run) && s == BansAfter(nodes, defaultBan, run) && rounds == RoundsOf(nodes, defaultBan, run)
    requires LastOf(run, i, p) && end == PeriodEnd(defaultBan, run, i) - SumFrom(rounds, i)
    ensures p in s.until && s.until[p] == Wrap32(end)
  {
    RecordedUntil(defaultBan, run, rounds, i, p, end);
    RecordIsRecorded(nodes, defaultBan, run, p, s, rounds);
  }

  /** So it is offered again exactly in the epochs after that, provided the end of the ban is a
      32-bit number: with nothing shortened, not from the next epoch to the one that ends its
      period, and from the one after on. */
  lemma OfferedAfterBan(nodes: seq<int>, defaultBan: Int32, run: seq<Suspicion>, i: nat, p: int, s: Bans,
                        rounds: seq<nat>, end: int, e: int)
    requires nodes != [] && InTime(run) && s == BansAfter(nodes, defaultBan, run) && rounds == RoundsOf(nodes, defaultBan, run)
    requires LastOf(run, i, p) && end == PeriodEnd(defaultBan, run, i) - SumFrom(rounds, i)
    requires -0x8000_0000 <= end < 0x8000_0000
    ensures p in Leaders(nodes, s.until, e) <==> p in nodes && e > end
  {
    BannedUntil(nodes, defaultBan, run, i, p, s, rounds, end);
    Wraps(end);
    LeadsIff(nodes, s.until, e, p);
  }

  /** A node that was never suspected is always offered. */
  lemma UnsuspectedOffered(nodes: seq<int>, defaultBan: Int32, run: seq<Suspicion>, p: int, e: int)
    requires nodes != [] && InTime(run) && p in nodes && TimesSuspected(run, p) == 0
    ensures p in Leaders(nodes, BansAfter(nodes, defaultBan, run).until, e)
  {
    PeriodDoubles(nodes, defaultBan, run, p, BansAfter(nodes, defaultBan, run));
    LeadsIff(nodes, BansAfter(nodes, defaultBan, run).until, e, p);
  }

  /** The combined policy leaves out exactly the nodes that are banned and among the last f suspects. */
  lemma CombinedOffers(nodes: seq<int>, defaultBan: Int32, run: seq<Suspicion>, until: map<int, Int32>, list: seq<int>, e: int,
                       p: int)
    requires nodes != [] && InTime(run)
    requires until == BansAfter(nodes, defaultBan, run).until && list == ListAfter(Faults(|nodes|), run)
    ensures p in Combined(nodes, until, list, e) <==>
      p in nodes && ((p in until ==> until[p] < e) || p !in Latest(SuspectsOf(run), Faults(|nodes|)))
  {
    BlacklistIsLatest(Faults(|nodes|), run);
    LeadsIff(nodes, until, e, p);
    AllowedIff(nodes, SetOf(list), p);
  }
}
