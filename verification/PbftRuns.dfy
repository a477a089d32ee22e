/** Three short runs of a PBFT view, written out step by step, with a faulty leader 0 and one
    fault tolerated. */
module PbftRuns {
  import opened Quorums
  import opened Requests
  import opened Pbft
  import opened PbftProtocol
  import opened PbftAgreement
  import opened PbftSplits

  const SN := 7

  /** Nodes 1 to `n - 1` are correct, node 0 is faulty and leads view 0. */
  const FOUR := Config({1, 2, 3}, {0}, [0, 1, 2, 3], 0, {SN})
  const FIVE := Config({1, 2, 3, 4}, {0}, [0, 1, 2, 3, 4], 0, {SN})

  lemma OneFault()
    ensures FaultBound(FOUR) == 1 && FaultBound(FIVE) == 1 && |Members(FIVE)| == 5
  {
    assert Members(FOUR) == {0, 1, 2, 3} && Members(FIVE) == {0, 1, 2, 3, 4};
  }

  // ----- steps -----

  function Accepts(c: Config, n: int, d: Digest, flag: bool): Step
    requires c.leaders != []
  {
    Deliver(n, Proposal(c, SN, d, flag), Acceptable)
  }

  function Hears(c: Config, n: int, d: Digest, p: int): Step {
    Deliver(n, PrepareOf(c, SN, d, p), Acceptable)
  }

  function Gets(c: Config, n: int, d: Digest, p: int): Step {
    Deliver(n, CommitOf(c, SN, d, p), Acceptable)
  }

  /** The faulty node sends some messages. */
  function Forges(msgs: seq<Message>): seq<Step> {
    if msgs == [] then [] else Forges(msgs[..|msgs| - 1]) + [Forge(msgs[|msgs| - 1])]
  }

  lemma {:induction false} ForgesTell(c: Config, msgs: seq<Message>)
    requires c.leaders != [] && forall m :: m in msgs ==> m.sender in c.faulty
    ensures Run(c, Forges(msgs)) == Initial(c).(net := set m | m in msgs)
  {
    if msgs != [] {
      var before, last := msgs[..|msgs| - 1], msgs[|msgs| - 1];
      assert msgs == before + [last];
      ForgesTell(c, before);
      RunExtends(c, Forges(before), Forge(last));
      assert (set m | m in before) + {last} == set m | m in msgs;
    }
  }

  lemma UntouchedAtFirst(c: Config, net: set<Message>, n: int)
    requires n in c.correct && SN in c.sns
    ensures Untouched(c, Initial(c).(net := net), n, SN)
  {
  }

  lemma UntouchedStays(c: Config, w: World, w': World, moved: int, n: int)
    requires Untouched(c, w, n, SN) && OnlyMoved(w, w', {moved}) && n != moved
    ensures Untouched(c, w', n, SN)
  {
  }

  lemma ReadyStays(c: Config, w: World, w': World, moved: int, n: int, d: Digest, flag: bool)
    requires c.leaders != [] && IsReady(c, w, n, SN, d, flag) && OnlyMoved(w, w', {moved}) && n != moved
    ensures IsReady(c, w', n, SN, d, flag)
  {
  }

  lemma AcceptNext(c: Config, run: seq<Step>, n: int, d: Digest, flag: bool)
    requires c.leaders != [] && LeaderOf(c) != n && Untouched(c, Run(c, run), n, SN)
    requires Proposal(c, SN, d, flag) in Run(c, run).net
    ensures Backs(c, Run(c, run + [Accepts(c, n, d, flag)]), n, SN, d, flag, {n}, {})
    ensures OnlyMoved(Run(c, run), Run(c, run + [Accepts(c, n, d, flag)]), {n})
  {
    RunExtends(c, run, Accepts(c, n, d, flag));
    AcceptStep(c, Run(c, run), Run(c, run + [Accepts(c, n, d, flag)]), n, SN, d, flag);
  }

  /** A node that backs a proposal hears one more prepare, which is enough. */
  lemma HearNext(c: Config, run: seq<Step>, n: int, d: Digest, flag: bool, p: int)
    requires c.leaders != [] && FaultBound(c) == 1 && p != n && PrepareOf(c, SN, d, p) in Run(c, run).net
    requires Backs(c, Run(c, run), n, SN, d, flag, {n}, {})
    ensures IsReady(c, Run(c, run + [Hears(c, n, d, p)]), n, SN, d, flag)
    ensures OnlyMoved(Run(c, run), Run(c, run + [Hears(c, n, d, p)]), {n})
  {
    RunExtends(c, run, Hears(c, n, d, p));
    HearStep(c, Run(c, run), Run(c, run + [Hears(c, n, d, p)]), n, SN, d, flag, {n}, {}, p);
    assert |{n} + {p}| == 2;
    HeardEnough(c, Run(c, run + [Hears(c, n, d, p)]), n, SN, d, flag, {n} + {p}, {});
  }

  /** A ready node gets one more commit. */
  lemma GetNext(c: Config, run: seq<Step>, n: int, d: Digest, flag: bool, got: set<int>, p: int)
    requires IsConfig(c) && p != n && CommitOf(c, SN, d, p) in Run(c, run).net
    requires Backs(c, Run(c, run), n, SN, d, flag, {}, got)
    ensures Backs(c, Run(c, run + [Gets(c, n, d, p)]), n, SN, d, flag, {}, got + {p})
    ensures OnlyMoved(Run(c, run), Run(c, run + [Gets(c, n, d, p)]), {n})
  {
    RunExtends(c, run, Gets(c, n, d, p));
    GetStep(c, Run(c, run), Run(c, run + [Gets(c, n, d, p)]), n, SN, d, flag, {}, got, p);
  }

  lemma ThreeAreEnough(c: Config, run: seq<Step>, n: int, d: Digest, flag: bool, p: int, q: int)
    requires IsConfig(c) && FaultBound(c) == 1 && p != n && q != n && p != q
    requires Backs(c, Run(c, run), n, SN, d, flag, {}, {n} + {p} + {q})
    ensures Decided(n, SN, d, flag) in Run(c, run).decided
  {
    RunInv(c, run);
    StaysPrepared(c, Run(c, run), n, SN, d, flag, {n} + {p} + {q});
    assert |{n} + {p} + {q}| == 3;
    GotEnough(c, Run(c, run), n, SN, d, flag, {}, {n} + {p} + {q});
  }

  /** A ready node gets two more commits, which are enough. */
  lemma GetBoth(c: Config, run: seq<Step>, n: int, d: Digest, flag: bool, p: int, q: int, longer: seq<Step>)
    requires IsConfig(c) && FaultBound(c) == 1 && p != n && q != n && p != q
    requires CommitOf(c, SN, d, p) in Run(c, run).net && CommitOf(c, SN, d, q) in Run(c, run).net
    requires IsReady(c, Run(c, run), n, SN, d, flag) && longer == run + [Gets(c, n, d, p)] + [Gets(c, n, d, q)]
    ensures Decided(n, SN, d, flag) in Run(c, longer).decided
    ensures OnlyMoved(Run(c, run), Run(c, longer), {n})
  {
    GetNext(c, run, n, d, flag, {n}, p);
    GetNext(c, run + [Gets(c, n, d, p)], n, d, flag, {n} + {p}, q);
    ThreeAreEnough(c, longer, n, d, flag, p, q);
  }

  /** An untouched node accepts and hears a prepare: ready. */
  lemma AcceptAndHear(c: Config, run: seq<Step>, n: int, d: Digest, flag: bool, p: int, longer: seq<Step>)
    requires c.leaders != [] && FaultBound(c) == 1 && LeaderOf(c) != n && p != n && Untouched(c, Run(c, run), n, SN)
    requires Proposal(c, SN, d, flag) in Run(c, run).net && PrepareOf(c, SN, d, p) in Run(c, run).net
    requires longer == run + [Accepts(c, n, d, flag)] + [Hears(c, n, d, p)]
    ensures IsReady(c, Run(c, longer), n, SN, d, flag) && OnlyMoved(Run(c, run), Run(c, longer), {n})
  {
    AcceptNext(c, run, n, d, flag);
    HearNext(c, run + [Accepts(c, n, d, flag)], n, d, flag, p);
  }

  // ----- four nodes, prepared for two digests -----

  function PreparedTold(): seq<Message> {
    [Proposal(FOUR, SN, 10, false), PrepareOf(FOUR, SN, 10, 0), Proposal(FOUR, SN, 20, false), PrepareOf(FOUR, SN, 20, 0)]
  }

  /** Node 0 sends four messages; then nodes 1 and 2 receive two of them each. */
  function PreparedRun(): seq<Step> {
    Forges(PreparedTold()) + [Accepts(FOUR, 1, 10, false)] + [Hears(FOUR, 1, 10, 0)]
    + [Accepts(FOUR, 2, 20, false)] + [Hears(FOUR, 2, 20, 0)]
  }

  /** Of four nodes, one of them faulty, nodes 1 and 2 end up prepared for 10 and 20. */
  lemma FourNodesPreparedApart()
    ensures IsConfig(FOUR) && PreparedApart(Run(FOUR, PreparedRun()), 1, 2, SN)
  {
    OneFault();
    var told := Forges(PreparedTold());
    var run := told + [Accepts(FOUR, 1, 10, false)] + [Hears(FOUR, 1, 10, 0)];
    ForgesTell(FOUR, PreparedTold());
    UntouchedAtFirst(FOUR, Run(FOUR, told).net, 1);
    UntouchedAtFirst(FOUR, Run(FOUR, told).net, 2);
    AcceptAndHear(FOUR, told, 1, 10, false, 0, run);
    UntouchedStays(FOUR, Run(FOUR, told), Run(FOUR, run), 1, 2);
    AcceptAndHear(FOUR, run, 2, 20, false, 0, PreparedRun());
    ReadyStays(FOUR, Run(FOUR, run), Run(FOUR, PreparedRun()), 2, 1, 10, false);
  }

  // ----- five nodes, two digests decided -----

  function DecidedTold(): seq<Message> {
    [Proposal(FIVE, SN, 10, false), PrepareOf(FIVE, SN, 10, 0), CommitOf(FIVE, SN, 10, 0),
     Proposal(FIVE, SN, 20, false), PrepareOf(FIVE, SN, 20, 0), CommitOf(FIVE, SN, 20, 0)]
  }

  /** Nodes 1 and 2 are led to 10. */
  function FirstPair(): seq<Step> {
    Forges(DecidedTold()) + [Accepts(FIVE, 1, 10, false)] + [Hears(FIVE, 1, 10, 0)]
    + [Accepts(FIVE, 2, 10, false)] + [Hears(FIVE, 2, 10, 0)]
  }

  /** Nodes 3 and 4 are led to 20. */
  function BothPairs(): seq<Step> {
    FirstPair() + [Accepts(FIVE, 3, 20, false)] + [Hears(FIVE, 3, 20, 0)]
    + [Accepts(FIVE, 4, 20, false)] + [Hears(FIVE, 4, 20, 0)]
  }

  /** Each pair's commits, with that of node 0, make up 2f + 1. */
  function DecidedRun(): seq<Step> {
    BothPairs() + [Gets(FIVE, 1, 10, 2)] + [Gets(FIVE, 1, 10, 0)] + [Gets(FIVE, 3, 20, 4)] + [Gets(FIVE, 3, 20, 0)]
  }

  /** Of five nodes, one of them faulty, node 1 decides 10 and node 3 decides 20. */
  lemma FiveNodesDecideTwo()
    ensures IsConfig(FIVE) && |Members(FIVE)| == 5 && FaultBound(FIVE) == 1
    ensures Decided(1, SN, 10, false) in Run(FIVE, DecidedRun()).decided
    ensures Decided(3, SN, 20, false) in Run(FIVE, DecidedRun()).decided
  {
    OneFault();
    BothPairsReady();
    var run := BothPairs() + [Gets(FIVE, 1, 10, 2)] + [Gets(FIVE, 1, 10, 0)];
    GetBoth(FIVE, BothPairs(), 1, 10, false, 2, 0, run);
    ReadyStays(FIVE, Run(FIVE, BothPairs()), Run(FIVE, run), 1, 3, 20, false);
    GetBoth(FIVE, run, 3, 20, false, 4, 0, DecidedRun());
  }

  lemma SixTold()
    ensures forall m :: m in DecidedTold() ==> m in Run(FIVE, Forges(DecidedTold())).net
    ensures forall n :: n in FIVE.correct ==> Untouched(FIVE, Run(FIVE, Forges(DecidedTold())), n, SN)
  {
    ForgesTell(FIVE, DecidedTold());
    forall n | n in FIVE.correct
      ensures Untouched(FIVE, Run(FIVE, Forges(DecidedTold())), n, SN)
    {
      UntouchedAtFirst(FIVE, Run(FIVE, Forges(DecidedTold())).net, n);
    }
  }

  /** Two nodes that have heard nothing are led to a digest. */
  lemma LeadPair(c: Config, run: seq<Step>, m: int, n: int, d: Digest, run1: seq<Step>, longer: seq<Step>)
    requires c.leaders != [] && FaultBound(c) == 1 && LeaderOf(c) == 0 && m != 0 && n != 0 && m != n
    requires Untouched(c, Run(c, run), m, SN) && Untouched(c, Run(c, run), n, SN)
    requires Proposal(c, SN, d, false) in Run(c, run).net && PrepareOf(c, SN, d, 0) in Run(c, run).net
    requires run1 == run + [Accepts(c, m, d, false)] + [Hears(c, m, d, 0)]
    requires longer == run1 + [Accepts(c, n, d, false)] + [Hears(c, n, d, 0)]
    ensures IsReady(c, Run(c, longer), m, SN, d, false) && IsReady(c, Run(c, longer), n, SN, d, false)
    ensures OnlyMoved(Run(c, run), Run(c, longer), {m, n})
  {
    AcceptAndHear(c, run, m, d, false, 0, run1);
    UntouchedStays(c, Run(c, run), Run(c, run1), m, n);
    AcceptAndHear(c, run1, n, d, false, 0, longer);
    ReadyStays(c, Run(c, run1), Run(c, longer), n, m, d, false);
  }

  lemma FirstPairReady()
    ensures IsReady(FIVE, Run(FIVE, FirstPair()), 1, SN, 10, false) && IsReady(FIVE, Run(FIVE, FirstPair()), 2, SN, 10, false)
    ensures OnlyMoved(Run(FIVE, Forges(DecidedTold())), Run(FIVE, FirstPair()), {1, 2})
  {
    OneFault();
    SixTold();
    var told := Forges(DecidedTold());
    LeadPair(FIVE, told, 1, 2, 10, told + [Accepts(FIVE, 1, 10, false)] + [Hears(FIVE, 1, 10, 0)], FirstPair());
  }

  lemma BothPairsReady()
    ensures forall m :: m in DecidedTold() ==> m in Run(FIVE, BothPairs()).net
    ensures IsReady(FIVE, Run(FIVE, BothPairs()), 1, SN, 10, false) && IsReady(FIVE, Run(FIVE, BothPairs()), 2, SN, 10, false)
    ensures IsReady(FIVE, Run(FIVE, BothPairs()), 3, SN, 20, false) && IsReady(FIVE, Run(FIVE, BothPairs()), 4, SN, 20, false)
  {
    OneFault();
    SixTold();
    FirstPairReady();
    var run := FirstPair();
    assert Proposal(FIVE, SN, 20, false) in DecidedTold() && PrepareOf(FIVE, SN, 20, 0) in DecidedTold();
    LeadPair(FIVE, run, 3, 4, 20, run + [Accepts(FIVE, 3, 20, false)] + [Hears(FIVE, 3, 20, 0)], BothPairs());
  }

  // ----- four nodes, one batch, two entries -----

  function EntriesTold(): seq<Message> {
    [Proposal(FOUR, SN, 10, false), Proposal(FOUR, SN, 10, true)]
  }

  /** All correct nodes follow the same batch, node 2 with the flag set. */
  function Followed(): seq<Step> {
    Forges(EntriesTold()) + [Accepts(FOUR, 1, 10, false)] + [Accepts(FOUR, 2, 10, true)] + [Accepts(FOUR, 3, 10, false)]
  }

  function Heard(): seq<Step> {
    Followed() + [Hears(FOUR, 1, 10, 2)] + [Hears(FOUR, 2, 10, 1)] + [Hears(FOUR, 3, 10, 1)]
  }

  function EntriesRun(): seq<Step> {
    Heard() + [Gets(FOUR, 1, 10, 2)] + [Gets(FOUR, 1, 10, 3)] + [Gets(FOUR, 2, 10, 1)] + [Gets(FOUR, 2, 10, 3)]
  }

  lemma FollowedBack()
    ensures Backs(FOUR, Run(FOUR, Followed()), 1, SN, 10, false, {1}, {})
    ensures Backs(FOUR, Run(FOUR, Followed()), 2, SN, 10, true, {2}, {})
    ensures Backs(FOUR, Run(FOUR, Followed()), 3, SN, 10, false, {3}, {})
  {
    var run0 := Forges(EntriesTold());
    var run1 := run0 + [Accepts(FOUR, 1, 10, false)];
    var run2 := run1 + [Accepts(FOUR, 2, 10, true)];
    ForgesTell(FOUR, EntriesTold());
    UntouchedAtFirst(FOUR, Run(FOUR, run0).net, 1);
    UntouchedAtFirst(FOUR, Run(FOUR, run0).net, 2);
    UntouchedAtFirst(FOUR, Run(FOUR, run0).net, 3);
    assert Proposal(FOUR, SN, 10, false) in EntriesTold() && Proposal(FOUR, SN, 10, true) in EntriesTold();
    AcceptNext(FOUR, run0, 1, 10, false);
    UntouchedStays(FOUR, Run(FOUR, run0), Run(FOUR, run1), 1, 2);
    UntouchedStays(FOUR, Run(FOUR, run0), Run(FOUR, run1), 1, 3);
    AcceptNext(FOUR, run1, 2, 10, true);
    BacksStays(FOUR, Run(FOUR, run1), Run(FOUR, run2), {2}, 1, SN, 10, false, {1}, {});
    UntouchedStays(FOUR, Run(FOUR, run1), Run(FOUR, run2), 2, 3);
    AcceptNext(FOUR, run2, 3, 10, false);
    BacksStays(FOUR, Run(FOUR, run2), Run(FOUR, Followed()), {3}, 1, SN, 10, false, {1}, {});
    BacksStays(FOUR, Run(FOUR, run2), Run(FOUR, Followed()), {3}, 2, SN, 10, true, {2}, {});
  }

  lemma HeardReady()
    ensures IsReady(FOUR, Run(FOUR, Heard()), 1, SN, 10, false)
    ensures IsReady(FOUR, Run(FOUR, Heard()), 2, SN, 10, true)
    ensures IsReady(FOUR, Run(FOUR, Heard()), 3, SN, 10, false)
  {
    OneFault();
    FollowedBack();
    var run0 := Followed();
    var run1 := run0 + [Hears(FOUR, 1, 10, 2)];
    var run2 := run1 + [Hears(FOUR, 2, 10, 1)];
    HearNext(FOUR, run0, 1, 10, false, 2);
    BacksStays(FOUR, Run(FOUR, run0), Run(FOUR, run1), {1}, 2, SN, 10, true, {2}, {});
    BacksStays(FOUR, Run(FOUR, run0), Run(FOUR, run1), {1}, 3, SN, 10, false, {3}, {});
    HearNext(FOUR, run1, 2, 10, true, 1);
    ReadyStays(FOUR, Run(FOUR, run1), Run(FOUR, run2), 2, 1, 10, false);
    BacksStays(FOUR, Run(FOUR, run1), Run(FOUR, run2), {2}, 3, SN, 10, false, {3}, {});
    HearNext(FOUR, run2, 3, 10, false, 1);
    ReadyStays(FOUR, Run(FOUR, run2), Run(FOUR, Heard()), 3, 1, 10, false);
    ReadyStays(FOUR, Run(FOUR, run2), Run(FOUR, Heard()), 3, 2, 10, true);
  }

  /** Of four nodes, one of them faulty, nodes 1 and 2 decide one digest, node 2 with the flag
      that makes the log suspect the leader. */
  lemma FourNodesSplitEntry()
    ensures IsConfig(FOUR) && FaultBound(FOUR) == 1
    ensures Decided(1, SN, 10, false) in Run(FOUR, EntriesRun()).decided
    ensures Decided(2, SN, 10, true) in Run(FOUR, EntriesRun()).decided
  {
    OneFault();
    HeardReady();
    var run := Heard() + [Gets(FOUR, 1, 10, 2)] + [Gets(FOUR, 1, 10, 3)];
    GetBoth(FOUR, Heard(), 1, 10, false, 2, 3, run);
    ReadyStays(FOUR, Run(FOUR, Heard()), Run(FOUR, run), 1, 2, 10, true);
    GetBoth(FOUR, run, 2, 10, true, 1, 3, EntriesRun());
  }
}
