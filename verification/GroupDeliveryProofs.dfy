/** The group deliverer computes the reference of module GroupDeliverySpec. */
module GroupDeliveryProofs {
  import opened Requests
  import opened Metas
  import opened GroupDelivery
  import opened GroupDeliverySpec

  // ----- one turn of the loop -----

  lemma {:induction false} DistinctFrom(log: seq<Item>, h: nat)
    requires Distinct(log) && h <= |log|
    ensures Distinct(log[h..])
  {
    if h > 0 {
      DistinctFrom(log[1..], h - 1);
      assert log[1..][h - 1..] == log[h..];
    } else {
      assert log[h..] == log;
    }
  }

  lemma {:induction false} DistinctAppend(log: seq<Item>, it: Item)
    requires Distinct(log) && (IsCross(it.req) ==> !Holds(log, it.req.gsn))
    ensures Distinct(log + [it])
  {
    if log == [] {
      assert log + [it] == [it];
    } else {
      assert (log + [it])[0] == log[0] && (log + [it])[1..] == log[1..] + [it];
      DistinctAppend(log[1..], it);
      if IsCross(log[0].req) {
        HoldsConcat(log[1..], [it], log[0].req.gsn);
      }
    }
  }

  lemma TailHeld(d: Deliverer, log: seq<Item>, gsn: nat)
    requires LogMatches(d, log)
    ensures Holds(log, gsn) <==> Holds(log[..HeadOf(d, log)], gsn) || Holds(d.log[d.head..], gsn)
  {
    assert log == log[..HeadOf(d, log)] + d.log[d.head..];
    HoldsConcat(log[..HeadOf(d, log)], d.log[d.head..], gsn);
  }

  /** The fate of the GSN after the cursor decides whether it is passed over. */
  lemma PassesWhen(d: Deliverer, fates: Fates, log: seq<Item>, known: set<nat>)
    requires MetaOk(d, fates, known) && LogMatches(d, log) && EarlyOk(d, log) && d.cursor < d.metaPrefix
    ensures Passes(d, d.cursor + 1) <==> !Concerns(fates, d.gid, d.cursor + 1)
    ensures MetaOk(d.(meta := d.meta - {d.cursor + 1}, cursor := d.cursor + 1), fates, known)
  {
    var next := d.cursor + 1;
    assert next in known && next in d.meta;
    assert next !in d.early;
    assert d.meta[next] == fates(next);
  }

  /** Passing over one GSN that does not concern the group. */
  lemma PassRefines(d: Deliverer, fates: Fates, log: seq<Item>, known: set<nat>)
    requires Represents(d, fates, log, known) && d.cursor < d.metaPrefix
    ensures Passes(d, d.cursor + 1) <==> !Concerns(fates, d.gid, d.cursor + 1)
    ensures Passes(d, d.cursor + 1) ==> Represents(d.(meta := d.meta - {d.cursor + 1}, cursor := d.cursor + 1), fates, log, known)
  {
    PassesWhen(d, fates, log, known);
    var next := d.cursor + 1;
    if !Concerns(fates, d.gid, next) {
      assert !Holds(log, next);
      TailHeld(d, log, next);
      var d1 := d.(meta := d.meta - {next}, cursor := next);
      assert HeadOf(d1, log) == HeadOf(d, log);
      assert CrossOk(d1, log) && EarlyOk(d1, log) && PassedOk(d1, log) && SettledOk(d1, fates, log);
    }
  }

  lemma DeliverSkips(fates: Fates, gid: nat, log: seq<Item>, prefix: nat, head: nat, cursor: nat)
    requires head < |log| && IsCross(log[head].req) && log[head].req.gsn > cursor
    requires cursor < prefix && !Concerns(fates, gid, cursor + 1)
    ensures Deliver(fates, gid, log, prefix, head, cursor) == Deliver(fates, gid, log, prefix, head, cursor + 1)
  {
  }

  /** What advancing the cursor leaves: the state is represented, the head is not passed, the
      reference does not notice, and the cursor stops where it must. */
  ghost predicate AdvanceOk(d: Deliverer, d1: Deliverer, fates: Fates, log: seq<Item>, known: set<nat>)
    requires d.head < |d.log| && 0 <= HeadOf(d, log) <= |log|
  {
    && Represents(d1, fates, log, known)
    && d1.cursor < d.log[d.head].req.gsn
    && d1 == d.(meta := d1.meta, cursor := d1.cursor)
    && Deliver(fates, d.gid, log, d.metaPrefix, HeadOf(d, log), d.cursor)
       == Deliver(fates, d.gid, log, d.metaPrefix, HeadOf(d, log), d1.cursor)
    && (d1.cursor < d.metaPrefix ==> Concerns(fates, d.gid, d1.cursor + 1))
  }

  lemma {:induction false} AdvanceRefines(d: Deliverer, fates: Fates, log: seq<Item>, known: set<nat>)
    requires Represents(d, fates, log, known) && d.head < |d.log|
    requires IsCross(d.log[d.head].req) && d.log[d.head].req.gsn > d.cursor
    ensures AdvanceOk(d, AdvanceCursor(d), fates, log, known)
    decreases d.metaPrefix - d.cursor
  {
    AdvanceFrame(d);
    if d.cursor < d.metaPrefix {
      PassRefines(d, fates, log, known);
      if Passes(d, d.cursor + 1) {
        var d1 := d.(meta := d.meta - {d.cursor + 1}, cursor := d.cursor + 1);
        PassKeepsHead(d, fates, log, known);
        AdvanceRefines(d1, fates, log, known);
        AdvanceOver(d, d1, AdvanceCursor(d1), fates, log, known);
      }
    }
  }

  /** The operation at the head is not passed over: it concerns the group. */
  lemma PassKeepsHead(d: Deliverer, fates: Fates, log: seq<Item>, known: set<nat>)
    requires Represents(d, fates, log, known) && d.head < |d.log| && !Concerns(fates, d.gid, d.cursor + 1)
    requires IsCross(d.log[d.head].req) && d.log[d.head].req.gsn > d.cursor
    ensures d.log[d.head].req.gsn > d.cursor + 1
  {
    assert d.log[d.head] == log[HeadOf(d, log)];
    HoldsAt(log, HeadOf(d, log));
  }

  /** Passing over one GSN and advancing from there is advancing. */
  lemma AdvanceOver(d: Deliverer, d1: Deliverer, d2: Deliverer, fates: Fates, log: seq<Item>, known: set<nat>)
    requires Represents(d, fates, log, known) && d.head < |d.log|
    requires IsCross(d.log[d.head].req) && d.log[d.head].req.gsn > d.cursor
    requires d.cursor < d.metaPrefix && !Concerns(fates, d.gid, d.cursor + 1)
    requires d1 == d.(meta := d1.meta, cursor := d.cursor + 1) && AdvanceOk(d1, d2, fates, log, known)
    ensures AdvanceOk(d, d2, fates, log, known)
  {
    assert d.log[d.head] == log[HeadOf(d, log)];
    assert HeadOf(d1, log) == HeadOf(d, log);
    DeliverSkips(fates, d.gid, log, d.metaPrefix, HeadOf(d, log), d.cursor);
  }

  lemma NotFurtherOn(log: seq<Item>, h: nat)
    requires Distinct(log) && h < |log| && IsCross(log[h].req)
    ensures !Holds(log[h + 1..], log[h].req.gsn)
  {
    DistinctFrom(log, h);
    assert log[h..][1..] == log[h + 1..];
  }

  /** Moving the head over one item of the log. */
  lemma PassHead(d: Deliverer, fates: Fates, log: seq<Item>)
    requires LogOk(fates, d.gid, log) && LogMatches(d, log) && d.head < |d.log|
    ensures d.log[d.head] == log[HeadOf(d, log)]
    ensures forall g: nat :: Holds(log[..HeadOf(d, log) + 1], g) <==>
      Holds(log[..HeadOf(d, log)], g) || IsCopyOf(d.log[d.head], g)
    ensures forall g: nat :: Holds(d.log[d.head..], g) <==> IsCopyOf(d.log[d.head], g) || Holds(d.log[d.head + 1..], g)
    ensures forall g: nat :: IsCopyOf(d.log[d.head], g) ==> !Holds(d.log[d.head + 1..], g)
  {
    var h, it := HeadOf(d, log), d.log[d.head];
    assert log[..h + 1] == log[..h] + [it];
    assert d.log[d.head..][1..] == d.log[d.head + 1..];
    forall g: nat
      ensures Holds(log[..h + 1], g) <==> Holds(log[..h], g) || IsCopyOf(it, g)
      ensures IsCopyOf(it, g) ==> !Holds(d.log[d.head + 1..], g)
    {
      HoldsConcat(log[..h], [it], g);
      if IsCopyOf(it, g) {
        NotFurtherOn(log, h);
        assert d.log[d.head + 1..] == log[h + 1..];
      }
    }
  }

  /** What moving the head asks of the rest of the state. */
  lemma MoveHead(d: Deliverer, d1: Deliverer, fates: Fates, log: seq<Item>)
    requires LogOk(fates, d.gid, log) && LogMatches(d, log) && EarlyOk(d, log) && PassedOk(d, log) && d.head < |d.log|
    requires d1.log == d.log && d1.head == d.head + 1 && d1.cursor >= d.cursor
    requires forall g: nat :: IsCopyOf(d.log[d.head], g) ==> g <= d1.cursor
    requires forall g: nat :: d.cursor < g <= d1.cursor ==> IsCopyOf(d.log[d.head], g)
    requires forall g: nat :: g in d1.early <==> g in d.early && !IsCopyOf(d.log[d.head], g)
    ensures LogMatches(d1, log) && EarlyOk(d1, log) && PassedOk(d1, log)
    ensures HeadOf(d1, log) == HeadOf(d, log) + 1 && d.log[d.head] == log[HeadOf(d, log)]
  {
    PassHead(d, fates, log);
    assert log[..HeadOf(d1, log)] == log[..HeadOf(d, log) + 1];
    assert d1.log[d1.head..] == d.log[d.head + 1..];
    forall g: nat
      ensures g in d1.early <==> g <= d1.cursor && Holds(d1.log[d1.head..], g)
      ensures Holds(log[..HeadOf(d1, log)], g) ==> g <= d1.cursor
    {
      assert Holds(d.log[d.head..], g) <==> IsCopyOf(d.log[d.head], g) || Holds(d.log[d.head + 1..], g);
      assert IsCopyOf(d.log[d.head], g) ==> !Holds(d.log[d.head + 1..], g);
      assert Holds(log[..HeadOf(d, log) + 1], g) <==> Holds(log[..HeadOf(d, log)], g) || IsCopyOf(d.log[d.head], g);
    }
  }

  lemma {:induction false} FindUnique(log: seq<Item>, i: nat)
    requires Distinct(log) && i < |log| && IsCross(log[i].req)
    ensures Holds(log, log[i].req.gsn) && Find(log, log[i].req.gsn) == log[i]
  {
    if i > 0 {
      FindUnique(log[1..], i - 1);
    }
  }

  /** A turn of the loop is a step of the reference. */
  ghost predicate TurnOk(d: Deliverer, t: Turn, fates: Fates, log: seq<Item>, known: set<nat>) {
    && 0 <= HeadOf(d, log) <= |log|
    && Represents(t.d, fates, log, known)
    && t.d.gid == d.gid && t.d.metaPrefix == d.metaPrefix && |t.d.log| == |d.log|
    && Deliver(fates, d.gid, log, d.metaPrefix, HeadOf(d, log), d.cursor) ==
       match t
       case Wait(d1) => Progress([], HeadOf(d1, log), d1.cursor)
       case Go(d1, sent) => After(sent, Deliver(fates, d.gid, log, d.metaPrefix, HeadOf(d1, log), d1.cursor))
  }

  lemma LocalHead(d: Deliverer, d1: Deliverer, fates: Fates, log: seq<Item>, known: set<nat>)
    requires Represents(d, fates, log, known) && d.head < |d.log| && !IsCross(d.log[d.head].req)
    requires d1 == d.(head := d.head + 1)
    ensures Represents(d1, fates, log, known)
    ensures HeadOf(d1, log) == HeadOf(d, log) + 1 && d.log[d.head] == log[HeadOf(d, log)]
  {
    MoveHead(d, d1, fates, log);
  }

  lemma LocalStep(fates: Fates, gid: nat, log: seq<Item>, prefix: nat, head: nat, cursor: nat)
    requires head < |log| && !IsCross(log[head].req)
    ensures Deliver(fates, gid, log, prefix, head, cursor)
            == After([log[head]], Deliver(fates, gid, log, prefix, head + 1, cursor))
  {
  }

  lemma LocalTurn(d: Deliverer, fates: Fates, log: seq<Item>, known: set<nat>)
    requires Represents(d, fates, log, known) && d.head < |d.log| && !IsCross(d.log[d.head].req)
    ensures TurnOk(d, TakeTurn(d), fates, log, known)
  {
    var d1 := d.(head := d.head + 1);
    LocalHead(d, d1, fates, log, known);
    LocalStep(fates, d.gid, log, d.metaPrefix, HeadOf(d, log), d.cursor);
    TurnFromStep(d, d1, [d.log[d.head]], fates, log, known, HeadOf(d, log), HeadOf(d1, log));
  }

  /** The head reaches an operation that is already out. */
  lemma EarlyTurn(d: Deliverer, fates: Fates, log: seq<Item>, known: set<nat>)
    requires Represents(d, fates, log, known) && d.head < |d.log|
    requires IsCross(d.log[d.head].req) && d.log[d.head].req.gsn in d.early
    ensures TurnOk(d, TakeTurn(d), fates, log, known)
  {
    MoveHead(d, TakeTurn(d).d, fates, log);
    AfterNothing(Deliver(fates, d.gid, log, d.metaPrefix, HeadOf(d, log) + 1, d.cursor));
  }

  /** Settling the GSN after the cursor. */
  lemma SettleNext(d: Deliverer, d1: Deliverer, fates: Fates, log: seq<Item>, known: set<nat>)
    requires d.cursor < d.metaPrefix && d1.cursor == d.cursor + 1
    requires d1.gid == d.gid && d1.metaPrefix == d.metaPrefix
    requires MetaOk(d, fates, known) && d1.meta == d.meta - {d1.cursor}
    requires CrossOk(d, log) && d1.crossInLog == d.crossInLog - {d1.cursor}
    requires SettledOk(d, fates, log) && Holds(log, d1.cursor)
    ensures MetaOk(d1, fates, known) && CrossOk(d1, log) && SettledOk(d1, fates, log)
  {
  }

  /** The head operation is the smallest one due. */
  lemma DueTurn(d: Deliverer, fates: Fates, log: seq<Item>, known: set<nat>)
    requires Represents(d, fates, log, known) && d.head < |d.log|
    requires IsCross(d.log[d.head].req) && d.log[d.head].req.gsn == d.cursor + 1 <= d.metaPrefix
    ensures var d1 := MarkDelivered(d, d.cursor + 1).(head := d.head + 1);
      && Represents(d1, fates, log, known)
      && HeadOf(d1, log) == HeadOf(d, log) + 1 <= |log|
      && d.log[d.head] == log[HeadOf(d, log)]
  {
    var d1 := MarkDelivered(d, d.cursor + 1).(head := d.head + 1);
    assert d.cursor + 1 !in d.early;
    MoveHead(d, d1, fates, log);
    FindUnique(log, HeadOf(d, log));
    SettleNext(d, d1, fates, log, known);
  }

  /** The reference settles the operation at its head and then moves past it. */
  lemma DueStep(fates: Fates, gid: nat, log: seq<Item>, prefix: nat, head: nat, cursor: nat)
    requires head < |log| && LogOk(fates, gid, log) && cursor < prefix
    requires IsCross(log[head].req) && log[head].req.gsn == cursor + 1
    ensures Deliver(fates, gid, log, prefix, head, cursor)
            == After([log[head]], Deliver(fates, gid, log, prefix, head + 1, cursor + 1))
  {
    FindUnique(log, head);
    assert Deliver(fates, gid, log, prefix, head, cursor + 1) == Deliver(fates, gid, log, prefix, head + 1, cursor + 1);
  }

  /** A smaller operation is due and lies further on in the log. */
  lemma AheadTurn(d: Deliverer, fates: Fates, log: seq<Item>, known: set<nat>)
    requires Represents(d, fates, log, known) && d.head < |d.log| && d.cursor < d.metaPrefix
    requires d.cursor + 1 in d.crossInLog
    ensures Represents(MarkDelivered(d, d.cursor + 1).(early := d.early + {d.cursor + 1}), fates, log, known)
    ensures Holds(log, d.cursor + 1) && d.crossInLog[d.cursor + 1] == Find(log, d.cursor + 1)
    ensures d.log[d.head] == log[HeadOf(d, log)]
  {
    TailHeld(d, log, d.cursor + 1);
    var d1 := MarkDelivered(d, d.cursor + 1).(early := d.early + {d.cursor + 1});
    SettleNext(d, d1, fates, log, known);
    assert HeadOf(d1, log) == HeadOf(d, log);
  }

  /** From the state a turn leaves and the step of the reference to the turn as a whole. */
  lemma TurnFromStep(d: Deliverer, d1: Deliverer, sent: seq<Item>, fates: Fates, log: seq<Item>, known: set<nat>,
                     head: nat, head1: nat)
    requires Represents(d1, fates, log, known)
    requires d1.gid == d.gid && d1.metaPrefix == d.metaPrefix && |d1.log| == |d.log|
    requires head == HeadOf(d, log) <= |log| && head1 == HeadOf(d1, log) <= |log|
    requires Deliver(fates, d.gid, log, d.metaPrefix, head, d.cursor)
             == After(sent, Deliver(fates, d.gid, log, d.metaPrefix, head1, d1.cursor))
    ensures TurnOk(d, Go(d1, sent), fates, log, known)
  {
  }

  lemma WaitTurn(d: Deliverer, fates: Fates, log: seq<Item>, known: set<nat>)
    requires Represents(d, fates, log, known) && d.head < |d.log|
    requires IsCross(d.log[d.head].req) && d.cursor < d.log[d.head].req.gsn
    requires d.cursor >= d.metaPrefix || (Concerns(fates, d.gid, d.cursor + 1) && d.cursor + 1 !in d.crossInLog)
    ensures TurnOk(d, Wait(d), fates, log, known)
  {
    assert d.log[d.head] == log[HeadOf(d, log)];
  }

  lemma DecideDue(d: Deliverer, fates: Fates, log: seq<Item>, known: set<nat>, t: Turn)
    requires Represents(d, fates, log, known) && d.head < |d.log| && t == Decide(d)
    requires IsCross(d.log[d.head].req) && d.cursor + 1 == d.log[d.head].req.gsn
    requires d.cursor < d.metaPrefix && Concerns(fates, d.gid, d.cursor + 1)
    ensures TurnOk(d, t, fates, log, known)
  {
    var head := HeadOf(d, log);
    DueTurn(d, fates, log, known);
    DueStep(fates, d.gid, log, d.metaPrefix, head, d.cursor);
    TurnFromStep(d, t.d, t.sent, fates, log, known, head, head + 1);
  }

  lemma DecideAhead(d: Deliverer, fates: Fates, log: seq<Item>, known: set<nat>, t: Turn)
    requires Represents(d, fates, log, known) && d.head < |d.log| && t == Decide(d)
    requires IsCross(d.log[d.head].req) && d.cursor + 1 < d.log[d.head].req.gsn
    requires d.cursor < d.metaPrefix && Concerns(fates, d.gid, d.cursor + 1) && d.cursor + 1 in d.crossInLog
    ensures TurnOk(d, t, fates, log, known)
  {
    var head := HeadOf(d, log);
    AheadTurn(d, fates, log, known);
    AheadStep(fates, d.gid, log, d.metaPrefix, head, d.cursor);
    TurnFromStep(d, t.d, t.sent, fates, log, known, head, head);
  }

  /** The head operation is not out and the cursor has stopped: wait, deliver it, or deliver another one. */
  lemma DecideRefines(d: Deliverer, fates: Fates, log: seq<Item>, known: set<nat>, t: Turn)
    requires Represents(d, fates, log, known) && d.head < |d.log|
    requires IsCross(d.log[d.head].req) && d.cursor < d.log[d.head].req.gsn
    requires d.cursor < d.metaPrefix ==> Concerns(fates, d.gid, d.cursor + 1)
    requires t == Decide(d)
    ensures TurnOk(d, t, fates, log, known)
  {
    if t.Wait? {
      WaitTurn(d, fates, log, known);
    } else if d.cursor + 1 == d.log[d.head].req.gsn {
      DecideDue(d, fates, log, known, t);
    } else {
      DecideAhead(d, fates, log, known, t);
    }
  }

  lemma AheadStep(fates: Fates, gid: nat, log: seq<Item>, prefix: nat, head: nat, cursor: nat)
    requires head < |log| && cursor < prefix && IsCross(log[head].req) && log[head].req.gsn > cursor + 1
    requires Concerns(fates, gid, cursor + 1) && Holds(log, cursor + 1)
    ensures Deliver(fates, gid, log, prefix, head, cursor)
            == After([Find(log, cursor + 1)], Deliver(fates, gid, log, prefix, head, cursor + 1))
  {
  }

  lemma CrossTurn(d: Deliverer, fates: Fates, log: seq<Item>, known: set<nat>)
    requires Represents(d, fates, log, known) && d.head < |d.log|
    requires IsCross(d.log[d.head].req) && d.log[d.head].req.gsn !in d.early
    ensures TurnOk(d, TakeTurn(d), fates, log, known)
  {
    assert Holds(d.log[d.head..], d.log[d.head].req.gsn);
    AdvanceRefines(d, fates, log, known);
    var d1 := AdvanceCursor(d);
    DecideRefines(d1, fates, log, known, Decide(d1));
    assert HeadOf(d1, log) == HeadOf(d, log);
  }

  lemma TurnRefines(d: Deliverer, fates: Fates, log: seq<Item>, known: set<nat>)
    requires Represents(d, fates, log, known) && d.head < |d.log|
    ensures TurnOk(d, TakeTurn(d), fates, log, known)
  {
    if !IsCross(d.log[d.head].req) {
      LocalTurn(d, fates, log, known);
    } else if d.log[d.head].req.gsn in d.early {
      EarlyTurn(d, fates, log, known);
    } else {
      CrossTurn(d, fates, log, known);
    }
  }

  // ----- whole calls -----

  /** A call leaves the deliverer where the reference waits. */
  ghost predicate Reaches(d: Deliverer, r: (Deliverer, seq<Item>), fates: Fates, log: seq<Item>, known: set<nat>) {
    && Represents(r.0, fates, log, known) && r.0.gid == d.gid && r.0.metaPrefix == d.metaPrefix
    && 0 <= HeadOf(d, log) <= |log|
    && Deliver(fates, d.gid, log, d.metaPrefix, HeadOf(d, log), d.cursor)
       == Progress(r.1, HeadOf(r.0, log), r.0.cursor)
  }

  lemma {:induction false} DrainRefines(d: Deliverer, fates: Fates, log: seq<Item>, known: set<nat>)
    requires Represents(d, fates, log, known)
    ensures Reaches(d, Drain(d), fates, log, known) && |Drain(d).0.log| == |d.log|
    decreases |d.log| - d.head, |d.crossInLog|
  {
    if d.head < |d.log| {
      TurnRefines(d, fates, log, known);
      TurnFrame(d);
      if TakeTurn(d).Go? {
        DrainRefines(TakeTurn(d).d, fates, log, known);
      }
    }
  }

  /** Compaction changes the log's offset, not what is left of it. */
  lemma CompactRefines(d: Deliverer, fates: Fates, log: seq<Item>, known: set<nat>)
    requires Represents(d, fates, log, known)
    ensures Represents(Compact(d), fates, log, known)
    ensures HeadOf(Compact(d), log) == HeadOf(d, log)
  {
    var d1 := Compact(d);
    assert d1.log[d1.head..] == d.log[d.head..];
    assert HeadOf(d1, log) == HeadOf(d, log);
  }

  lemma DrainLockedRefines(d: Deliverer, fates: Fates, log: seq<Item>, known: set<nat>)
    requires Represents(d, fates, log, known)
    ensures Reaches(d, DrainLocked(d), fates, log, known)
  {
    DrainRefines(d, fates, log, known);
    CompactRefines(Drain(d).0, fates, log, known);
  }

  // ----- the inputs -----

  lemma {:induction false} FindNew(log: seq<Item>, it: Item)
    requires IsCross(it.req) && !Holds(log, it.req.gsn)
    ensures Holds(log + [it], it.req.gsn) && Find(log + [it], it.req.gsn) == it
  {
    HoldsConcat(log, [it], it.req.gsn);
    if log != [] {
      assert (log + [it])[0] == log[0] && (log + [it])[1..] == log[1..] + [it];
      FindNew(log[1..], it);
    }
  }

  lemma AddOk(fates: Fates, gid: nat, log: seq<Item>, it: Item)
    requires LogOk(fates, gid, log) && (IsCross(it.req) ==> Concerns(fates, gid, it.req.gsn))
    ensures LogOk(fates, gid, Add(log, it))
  {
    if !(IsCross(it.req) && Holds(log, it.req.gsn)) {
      DistinctAppend(log, it);
      forall g: nat | Holds(log + [it], g)
        ensures g > 0 && Concerns(fates, gid, g)
      {
        HoldsConcat(log, [it], g);
      }
    }
  }

  /** The deliverer recognises exactly the repeated copies. */
  lemma CopiesRecognised(d: Deliverer, fates: Fates, log: seq<Item>, known: set<nat>, c: nat)
    requires Represents(d, fates, log, known) && c > 0 && Concerns(fates, d.gid, c)
    ensures c <= d.cursor || c in d.early || c in d.crossInLog <==> Holds(log, c)
  {
    TailHeld(d, log, c);
  }

  lemma GrowCross(d: Deliverer, d1: Deliverer, log: seq<Item>, it: Item)
    requires CrossOk(d, log) && d1.cursor == d.cursor
    requires IsCross(it.req) ==> !Holds(log, it.req.gsn) && it.req.gsn > d.cursor
    requires d1.crossInLog == if IsCross(it.req) then d.crossInLog[it.req.gsn := it] else d.crossInLog
    ensures CrossOk(d1, log + [it])
  {
    forall g: nat
      ensures g in d1.crossInLog <==> g > d.cursor && Holds(log + [it], g)
      ensures g in d1.crossInLog ==> d1.crossInLog[g] == Find(log + [it], g)
    {
      HoldsConcat(log, [it], g);
      if Holds(log, g) {
        FindStable(log, [it], g);
      } else if IsCopyOf(it, g) {
        FindNew(log, it);
      }
    }
  }

  lemma GrowLog(d: Deliverer, d1: Deliverer, fates: Fates, log: seq<Item>, it: Item)
    requires LogMatches(d, log) && EarlyOk(d, log) && PassedOk(d, log) && SettledOk(d, fates, log)
    requires d1.gid == d.gid && d1.log == d.log + [it] && d1.head == d.head && d1.early == d.early && d1.cursor == d.cursor
    requires IsCross(it.req) ==> it.req.gsn > d.cursor
    ensures LogMatches(d1, log + [it]) && EarlyOk(d1, log + [it]) && PassedOk(d1, log + [it]) && SettledOk(d1, fates, log + [it])
    ensures HeadOf(d1, log + [it]) == HeadOf(d, log)
  {
    assert d1.log[d1.head..] == d.log[d.head..] + [it];
    assert (log + [it])[..HeadOf(d1, log + [it])] == log[..HeadOf(d, log)];
    forall g: nat
      ensures Holds(d1.log[d1.head..], g) <==> Holds(d.log[d.head..], g) || IsCopyOf(it, g)
      ensures Holds(log, g) ==> Holds(log + [it], g)
    {
      HoldsConcat(d.log[d.head..], [it], g);
      HoldsConcat(log, [it], g);
    }
  }

  lemma AppendRefines(d: Deliverer, fates: Fates, log: seq<Item>, known: set<nat>, it: Item)
    requires Represents(d, fates, log, known) && (IsCross(it.req) ==> Concerns(fates, d.gid, it.req.gsn))
    ensures Represents(Append(d, it), fates, Add(log, it), known)
    ensures HeadOf(Append(d, it), Add(log, it)) == HeadOf(d, log)
  {
    AddOk(fates, d.gid, log, it);
    if IsCross(it.req) {
      CopiesRecognised(d, fates, log, known, it.req.gsn);
    }
    if !(IsCross(it.req) && Holds(log, it.req.gsn)) {
      GrowCross(d, Append(d, it), log, it);
      GrowLog(d, Append(d, it), fates, log, it);
    }
  }

  lemma {:induction false} AppendAllRefines(d: Deliverer, fates: Fates, log: seq<Item>, known: set<nat>,
                                            sn: int, leader: bool, requests: seq<Option<Request>>)
    requires Represents(d, fates, log, known)
    requires ConsistentEvent(fates, d.gid, Pushed(sn, leader, requests))
    ensures var d1, log1 := AppendAll(d, sn, leader, requests), AddAll(log, sn, leader, requests);
      && Represents(d1, fates, log1, known) && HeadOf(d1, log1) == HeadOf(d, log)
      && d1.gid == d.gid && d1.cursor == d.cursor && d1.metaPrefix == d.metaPrefix
      && log <= log1
  {
    if requests != [] {
      var before := requests[..|requests| - 1];
      AppendAllRefines(d, fates, log, known, sn, leader, before);
      var last := requests[|requests| - 1];
      if last.Some? {
        AppendRefines(AppendAll(d, sn, leader, before), fates, AddAll(log, sn, leader, before), known,
                      Item(sn, leader, last.value));
      }
    }
  }

  /** Learning the fate of some GSNs above the cursor. */
  lemma LearnRefines(d: Deliverer, fates: Fates, log: seq<Item>, known: set<nat>, meta: map<nat, seq<nat>>, more: set<nat>)
    requires Represents(d, fates, log, known)
    requires forall g :: g in meta <==> g in known + more && g > d.cursor
    requires forall g :: g in meta ==> meta[g] == fates(g)
    ensures var d1 := ExtendPrefix(d.(meta := meta));
      && Represents(d1, fates, log, known + more) && d1.metaPrefix >= d.metaPrefix
      && HeadOf(d1, log) == HeadOf(d, log)
  {
    var d1 := ExtendPrefix(d.(meta := meta));
    assert IsRunEnd(known + more, 0, d1.metaPrefix);
    assert HeadOf(d1, log) == HeadOf(d, log);
  }

  /** What the inputs of an event do to the state, before the delivery loop runs. */
  function Input(d: Deliverer, e: Event): Deliverer {
    match e
    case Pushed(sn, leader, requests) => AppendAll(d, sn, leader, requests)
    case Meta(gsn, groups) =>
      if gsn > 0 && gsn !in d.meta && gsn > d.cursor then ExtendPrefix(d.(meta := d.meta[gsn := groups])) else d
    case Skip(from, to) =>
      if from == 0 || to < from then d else ExtendPrefix(d.(meta := WithSkips(d.meta, d.cursor, from, to)))
  }

  predicate Ignored(e: Event) {
    match e
    case Pushed(_, _, requests) => requests == []
    case Meta(gsn, _) => gsn == 0
    case Skip(from, to) => from == 0 || to < from
  }

  function LogAfter(log: seq<Item>, e: Event): seq<Item> {
    match e
    case Pushed(sn, leader, requests) => AddAll(log, sn, leader, requests)
    case _ => log
  }

  lemma InputRefines(d: Deliverer, fates: Fates, log: seq<Item>, known: set<nat>, e: Event)
    requires Represents(d, fates, log, known) && ConsistentEvent(fates, d.gid, e)
    ensures var d1, log1 := Input(d, e), LogAfter(log, e);
      && Represents(d1, fates, log1, known + KnownBy(e)) && HeadOf(d1, log1) == HeadOf(d, log)
      && d1.gid == d.gid && d1.cursor == d.cursor && d1.metaPrefix >= d.metaPrefix
      && log <= log1
  {
    match e
    case Pushed(sn, leader, requests) =>
      AppendAllRefines(d, fates, log, known, sn, leader, requests);
      assert known + {} == known;
    case Meta(gsn, groups) =>
      if gsn > 0 && gsn !in d.meta && gsn > d.cursor {
        LearnRefines(d, fates, log, known, d.meta[gsn := groups], {gsn});
      } else {
        assert known + KnownBy(e) == known;
      }
    case Skip(from, to) =>
      if from > 0 && from <= to {
        LearnRefines(d, fates, log, known, WithSkips(d.meta, d.cursor, from, to), KnownBy(e));
      } else {
        assert known + KnownBy(e) == known;
      }
  }

  // ----- the theorem -----

  /** A replica is where the reference is. */
  ghost predicate AtReference(fates: Fates, gid: nat, d: Deliverer, sent: seq<Item>, log: seq<Item>, known: set<nat>) {
    && d.gid == gid
    && Represents(d, fates, log, known)
    && HeadOf(d, log) >= 0
    && Delivered(fates, gid, log, d.metaPrefix) == Progress(sent, HeadOf(d, log), d.cursor)
  }

  /** More inputs, before the delivery loop runs: the reference would reach this point first. */
  lemma InputAtReference(fates: Fates, gid: nat, d: Deliverer, sent: seq<Item>, log: seq<Item>, known: set<nat>, e: Event)
    requires AtReference(fates, gid, d, sent, log, known) && ConsistentEvent(fates, gid, e)
    ensures var d1, log1 := Input(d, e), LogAfter(log, e);
      && Represents(d1, fates, log1, known + KnownBy(e)) && d1.gid == gid
      && 0 <= HeadOf(d1, log1) <= |log1|
      && Delivered(fates, gid, log1, d1.metaPrefix)
         == After(sent, Deliver(fates, gid, log1, d1.metaPrefix, HeadOf(d1, log1), d1.cursor))
  {
    var d1, log1 := Input(d, e), LogAfter(log, e);
    InputRefines(d, fates, log, known, e);
    assert log1 == log + log1[|log|..];
    DeliverGrows(fates, gid, log, log1[|log|..], d.metaPrefix, d1.metaPrefix, 0, 0);
  }

  lemma EventAtReference(fates: Fates, gid: nat, d: Deliverer, sent: seq<Item>, log: seq<Item>, known: set<nat>, e: Event)
    requires AtReference(fates, gid, d, sent, log, known) && ConsistentEvent(fates, gid, e) && d.head <= |d.log|
    ensures AtReference(fates, gid, Handle(d, e).0, sent + Handle(d, e).1, LogAfter(log, e), known + KnownBy(e))
  {
    InputAtReference(fates, gid, d, sent, log, known, e);
    if Ignored(e) {
      IgnoredEvent(d, e, log);
      assert sent + [] == sent;
    } else {
      var d1 := Input(d, e);
      assert Handle(d, e) == DrainLocked(d1);
      DrainAtReference(fates, gid, d1, sent, LogAfter(log, e), known + KnownBy(e));
    }
  }

  lemma DrainAtReference(fates: Fates, gid: nat, d: Deliverer, sent: seq<Item>, log: seq<Item>, known: set<nat>)
    requires Represents(d, fates, log, known) && d.gid == gid && 0 <= HeadOf(d, log) <= |log|
    requires Delivered(fates, gid, log, d.metaPrefix)
             == After(sent, Deliver(fates, gid, log, d.metaPrefix, HeadOf(d, log), d.cursor))
    ensures AtReference(fates, gid, DrainLocked(d).0, sent + DrainLocked(d).1, log, known)
  {
    DrainLockedRefines(d, fates, log, known);
  }

  lemma {:induction false} ReplicaAtReference(fates: Fates, gid: nat, events: seq<Event>)
    requires Consistent(fates, gid, events)
    ensures AtReference(fates, gid, Replica(gid, events).0, Replica(gid, events).1, LogOf(events), KnownOf(events))
  {
    if events == [] {
      assert IsRunEnd({}, 0, 0);
    } else {
      var before, e := events[..|events| - 1], events[|events| - 1];
      ReplicaAtReference(fates, gid, before);
      var (d, sent) := Replica(gid, before);
      assert ConsistentEvent(fates, gid, e);
      EventAtReference(fates, gid, d, sent, LogOf(before), KnownOf(before), e);
      assert LogOf(events) == LogAfter(LogOf(before), e);
    }
  }

  /** For every interleaving of pushes, METAs and skips: all a replica has delivered, and the
      point where it waits, are the reference's for the de-duplicated log and the known META prefix. */
  lemma ReplicaRefines(fates: Fates, gid: nat, events: seq<Event>)
    requires Consistent(fates, gid, events)
    ensures var (d, sent) := Replica(gid, events);
      && d.gid == gid
      && Represents(d, fates, LogOf(events), KnownOf(events))
      && d.metaPrefix == PrefixOf(events)
      && HeadOf(d, LogOf(events)) >= 0
      && Delivered(fates, gid, LogOf(events), PrefixOf(events)) == Progress(sent, HeadOf(d, LogOf(events)), d.cursor)
  {
    ReplicaAtReference(fates, gid, events);
    RunEndUnique(KnownOf(events), 0, Replica(gid, events).0.metaPrefix);
  }

  lemma IgnoredEvent(d: Deliverer, e: Event, log: seq<Item>)
    requires Ignored(e)
    ensures Input(d, e) == d && LogAfter(log, e) == log
  {
  }
}
