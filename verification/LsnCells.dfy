/** Lock-free cells of the LSN tracking: the CAS-to-maximum loop and the timestamped sample. */
module LsnCells {

  // ----- compare-and-swap to the maximum

  /** One caller of the loop: not started, holding the value it last loaded, or returned. */
  datatype Pc = Start | Loaded(cur: nat) | Done

  datatype Caller = Caller(sample: nat, pc: Pc)

  datatype Race = Race(cell: nat, callers: seq<Caller>)

  /**
   * One atomic action of caller `i`: the initial load, or one compare-and-swap. A weak
   * exchange may fail although the cell holds the expected value (`spurious`).
   */
  function Act(r: Race, i: nat, spurious: bool): Race
    requires i < |r.callers|
  {
    var c := r.callers[i];
    match c.pc
    case Done => r
    case Start => r.(callers := r.callers[i := c.(pc := Loaded(r.cell))])
    case Loaded(cur) =>
      if cur >= c.sample then r.(callers := r.callers[i := c.(pc := Done)])
      else if r.cell == cur && !spurious then Race(c.sample, r.callers[i := c.(pc := Done)])
      else r.(callers := r.callers[i := c.(pc := Loaded(r.cell))])
  }

  datatype Action = Action(i: nat, spurious: bool)

  function Interleave(r: Race, schedule: seq<Action>): Race
    decreases |schedule|
  {
    if schedule == [] then r
    else
      var next := if schedule[0].i < |r.callers| then Act(r, schedule[0].i, schedule[0].spurious) else r;
      Interleave(next, schedule[1..])
  }

  /** The largest of `v` and all the callers' samples. */
  function Peak(v: nat, callers: seq<Caller>): nat {
    if callers == [] then v
    else
      var p := Peak(v, callers[..|callers| - 1]);
      if callers[|callers| - 1].sample > p then callers[|callers| - 1].sample else p
  }

  ghost predicate RaceInv(v: nat, r: Race) {
    && v <= r.cell
    && (r.cell == v || exists i :: 0 <= i < |r.callers| && r.callers[i].sample == r.cell)
    && forall i :: 0 <= i < |r.callers| ==>
      && (r.callers[i].pc.Loaded? ==> r.callers[i].pc.cur <= r.cell)
      && (r.callers[i].pc.Done? ==> r.callers[i].sample <= r.cell)
  }

  lemma ActKeeps(v: nat, r: Race, i: nat, spurious: bool)
    requires RaceInv(v, r) && i < |r.callers|
    ensures RaceInv(v, Act(r, i, spurious)) && r.cell <= Act(r, i, spurious).cell
    ensures |Act(r, i, spurious).callers| == |r.callers|
    ensures forall j :: 0 <= j < |r.callers| ==> Act(r, i, spurious).callers[j].sample == r.callers[j].sample
  {
    var n := Act(r, i, spurious);
    if n.cell == r.cell && r.cell != v {
      var j :| 0 <= j < |r.callers| && r.callers[j].sample == r.cell;
      assert n.callers[j].sample == r.cell;
    } else if n.cell != r.cell {
      assert n.callers[i].sample == n.cell;
    }
  }

  lemma {:induction false} InterleaveKeeps(v: nat, r: Race, schedule: seq<Action>)
    requires RaceInv(v, r)
    ensures var n := Interleave(r, schedule);
      && RaceInv(v, n) && r.cell <= n.cell && |n.callers| == |r.callers|
      && forall j :: 0 <= j < |r.callers| ==> n.callers[j].sample == r.callers[j].sample
    decreases |schedule|
  {
    if schedule != [] {
      if schedule[0].i < |r.callers| {
        ActKeeps(v, r, schedule[0].i, schedule[0].spurious);
        InterleaveKeeps(v, Act(r, schedule[0].i, schedule[0].spurious), schedule[1..]);
      } else {
        InterleaveKeeps(v, r, schedule[1..]);
      }
    }
  }

  lemma {:induction false} PeakBounds(v: nat, callers: seq<Caller>)
    ensures v <= Peak(v, callers)
    ensures forall i :: 0 <= i < |callers| ==> callers[i].sample <= Peak(v, callers)
    ensures Peak(v, callers) == v || exists i :: 0 <= i < |callers| && callers[i].sample == Peak(v, callers)
  {
    if callers != [] {
      var n := |callers| - 1;
      PeakBounds(v, callers[..n]);
      if callers[n].sample <= Peak(v, callers[..n]) && Peak(v, callers) != v {
        var i :| 0 <= i < n && callers[..n][i].sample == Peak(v, callers);
        assert callers[i].sample == Peak(v, callers);
      }
    }
  }

  /**
   * Whatever the interleaving and however often the exchange fails, once every caller
   * returned the cell holds the maximum of its initial value and all the samples.
   */
  lemma RaceEndsAtPeak(v: nat, samples: seq<nat>, schedule: seq<Action>)
    ensures var r := Race(v, seq(|samples|, i requires 0 <= i < |samples| => Caller(samples[i], Start)));
      var n := Interleave(r, schedule);
      (forall i :: 0 <= i < |n.callers| ==> n.callers[i].pc == Done) ==> n.cell == Peak(v, r.callers)
  {
    var r := Race(v, seq(|samples|, i requires 0 <= i < |samples| => Caller(samples[i], Start)));
    InterleaveKeeps(v, r, schedule);
    PeakBounds(v, r.callers);
    var n := Interleave(r, schedule);
    if forall i :: 0 <= i < |n.callers| ==> n.callers[i].pc == Done {
      if n.cell != v {
        var i :| 0 <= i < |n.callers| && n.callers[i].sample == n.cell;
        assert r.callers[i].sample == n.cell;
      }
      if Peak(v, r.callers) != v {
        var i :| 0 <= i < |r.callers| && r.callers[i].sample == Peak(v, r.callers);
        assert n.callers[i].sample == Peak(v, r.callers);
      }
    }
  }

  // ----- every caller returns

  /** A caller on its own loads, exchanges and returns, and leaves the larger value. */
  lemma AloneTwoActionsDo(r: Race, i: nat)
    requires i < |r.callers| && r.callers[i].pc == Start
    ensures var c := r.callers[i];
      Act(Act(r, i, false), i, false)
      == Race(if c.sample > r.cell then c.sample else r.cell, r.callers[i := c.(pc := Done)])
  {
    var c := r.callers[i];
    assert r.callers[i := c.(pc := Loaded(r.cell))][i := c.(pc := Done)] == r.callers[i := c.(pc := Done)];
  }

  /** An exchange that fails, and not spuriously, means that the cell rose since the caller's load. */
  lemma FailureMeansRise(v: nat, r: Race, i: nat)
    requires RaceInv(v, r) && i < |r.callers| && r.callers[i].pc.Loaded? && r.callers[i].pc.cur < r.callers[i].sample
    ensures Act(r, i, false).callers[i].pc != Done <==> r.cell > r.callers[i].pc.cur
  {
  }

  /** How many callers have not returned. */
  function Busy(callers: seq<Caller>): (n: nat)
    ensures n <= |callers|
  {
    if callers == [] then 0
    else Busy(callers[..|callers| - 1]) + if callers[|callers| - 1].pc == Done then 0 else 1
  }

  lemma {:induction false} BusyUpdate(callers: seq<Caller>, i: nat, c: Caller)
    requires i < |callers|
    ensures Busy(callers[i := c]) + (if callers[i].pc == Done then 0 else 1)
      == Busy(callers) + if c.pc == Done then 0 else 1
  {
    var n := |callers| - 1;
    if i == n {
      assert callers[i := c][..n] == callers[..n];
    } else {
      assert callers[i := c][..n] == callers[..n][i := c];
      BusyUpdate(callers[..n], i, c);
    }
  }

  /** What the next action of caller `c` sees: nothing new, or a cell that moved. */
  predicate UpToDate(cell: nat, c: Caller) {
    c.pc.Loaded? && (c.pc.cur == cell || c.pc.cur >= c.sample)
  }

  /** A bound on the actions caller `i` still needs: each failure uses up another caller. */
  function Needed(r: Race, i: nat): nat
    requires i < |r.callers|
  {
    if r.callers[i].pc == Done then 0
    else Busy(r.callers) + if UpToDate(r.cell, r.callers[i]) then 0 else 1
  }

  /** No action adds to it, and an action of the caller itself that is not spurious takes one away. */
  lemma ActProgresses(r: Race, i: nat, j: nat, spurious: bool)
    requires i < |r.callers| && j < |r.callers|
    ensures var n := Act(r, j, spurious);
      && |n.callers| == |r.callers|
      && Needed(n, i) + (if i == j && !spurious && r.callers[i].pc != Done then 1 else 0) <= Needed(r, i)
  {
    BusyUpdate(r.callers, j, Act(r, j, spurious).callers[j]);
    assert r.callers[j := r.callers[j]] == r.callers;
  }

  /** How many actions of caller `i` the schedule has that do not fail spuriously. */
  function Turns(schedule: seq<Action>, i: nat): nat
    decreases |schedule|
  {
    if schedule == [] then 0
    else Turns(schedule[1..], i) + if schedule[0].i == i && !schedule[0].spurious then 1 else 0
  }

  lemma {:induction false} TurnsSuffice(r: Race, schedule: seq<Action>, i: nat)
    requires i < |r.callers| && Turns(schedule, i) >= Needed(r, i)
    ensures var n := Interleave(r, schedule); |n.callers| == |r.callers| && n.callers[i].pc == Done
    decreases |schedule|
  {
    if schedule == [] {
      if r.callers[i].pc != Done {
        BusyUpdate(r.callers, i, r.callers[i].(pc := Done));
      }
    } else if schedule[0].i < |r.callers| {
      ActProgresses(r, i, schedule[0].i, schedule[0].spurious);
      TurnsSuffice(Act(r, schedule[0].i, schedule[0].spurious), schedule[1..], i);
    } else {
      TurnsSuffice(r, schedule[1..], i);
    }
  }

  /**
   * Every caller returns after at most one action more than there are callers, not counting
   * spurious failures, whatever the others do; when all have had that many, the cell holds
   * the maximum of its initial value and all the samples.
   */
  lemma RaceEnds(v: nat, samples: seq<nat>, schedule: seq<Action>)
    requires forall i :: 0 <= i < |samples| ==> Turns(schedule, i) > |samples|
    ensures var r := Race(v, seq(|samples|, i requires 0 <= i < |samples| => Caller(samples[i], Start)));
      var n := Interleave(r, schedule);
      && |n.callers| == |samples| && n.cell == Peak(v, r.callers)
      && forall i :: 0 <= i < |samples| ==> n.callers[i].pc == Done
  {
    var r := Race(v, seq(|samples|, i requires 0 <= i < |samples| => Caller(samples[i], Start)));
    InterleaveKeeps(v, r, schedule);
    forall i | 0 <= i < |samples| ensures Interleave(r, schedule).callers[i].pc == Done {
      TurnsSuffice(r, schedule, i);
    }
    RaceEndsAtPeak(v, samples, schedule);
  }

  // ----- the timestamp and the LSN it vouches for

  /** What the guard holder is in the middle of: nothing, publishing, or resetting. */
  datatype Writer = Quiet | Publishing(stamp: nat, at: nat) | Resetting

  /**
   * One reader of the pair. `vouched` is the LSN published with the timestamp it
   * loaded, `clean` whether no reset overlapped the read so far.
   */
  datatype Reader = Unread | GotTime(time: nat, vouched: nat, clean: bool)
                  | GotBoth(time: nat, lsn: nat, vouched: nat, clean: bool)

  /** `vouched` records the LSN the current timestamp was published with. */
  datatype Pair = Pair(lsn: nat, time: nat, vouched: nat, writer: Writer, readers: seq<Reader>)

  datatype Move =
    | BeginPublish(lsn: nat, at: nat)  // CAS the LSN to the maximum
    | EndPublish                       // then store the observation time
    | BeginReset                       // clear the LSN
    | EndReset                         // then clear the time
    | LoadTime(i: nat)                 // a reader acquires the time
    | LoadLsn(i: nat)                  // and only then loads the LSN

  function Taint(readers: seq<Reader>): seq<Reader> {
    seq(|readers|, i requires 0 <= i < |readers| =>
      match readers[i]
      case GotTime(time, vouched, _) => GotTime(time, vouched, false)
      case r => r)
  }

  function MovePair(p: Pair, m: Move): Pair {
    match m
    case BeginPublish(lsn, at) =>
      if p.writer == Quiet && lsn > 0
      then p.(lsn := if lsn > p.lsn then lsn else p.lsn, writer := Publishing(lsn, at)) else p
    case EndPublish =>
      if p.writer.Publishing?
      then p.(time := p.writer.at, vouched := p.writer.stamp, writer := Quiet) else p
    case BeginReset =>
      if p.writer == Quiet then p.(lsn := 0, writer := Resetting, readers := Taint(p.readers)) else p
    case EndReset =>
      if p.writer == Resetting then p.(time := 0, vouched := 0, writer := Quiet) else p
    case LoadTime(i) =>
      if i < |p.readers| && p.readers[i] == Unread
      then p.(readers := p.readers[i := GotTime(p.time, p.vouched, p.writer != Resetting)]) else p
    case LoadLsn(i) =>
      if i < |p.readers| && p.readers[i].GotTime? then
        var r := p.readers[i];
        p.(readers := p.readers[i := GotBoth(r.time, p.lsn, r.vouched, r.clean)])
      else p
  }

  function MoveAll(p: Pair, moves: seq<Move>): Pair
    decreases |moves|
  {
    if moves == [] then p else MoveAll(MovePair(p, moves[0]), moves[1..])
  }

  ghost predicate PairInv(p: Pair) {
    && (p.writer != Resetting ==> p.vouched <= p.lsn)
    && (p.writer.Publishing? ==> p.writer.stamp <= p.lsn)
    && forall i :: 0 <= i < |p.readers| ==>
      && (p.readers[i].GotTime? && p.readers[i].clean ==> p.readers[i].vouched <= p.lsn && p.writer != Resetting)
      && (p.readers[i].GotBoth? && p.readers[i].clean ==> p.readers[i].vouched <= p.readers[i].lsn)
  }

  /**
   * A reader that loads the timestamp before the LSN gets an LSN at least the one that
   * was published with that timestamp, in every interleaving, unless a reset overlapped
   * the two loads.
   */
  lemma {:induction false} SampleNotOlderThanItsTime(p: Pair, moves: seq<Move>)
    requires PairInv(p)
    ensures PairInv(MoveAll(p, moves))
    decreases |moves|
  {
    if moves != [] {
      assert PairInv(MovePair(p, moves[0]));
      SampleNotOlderThanItsTime(MovePair(p, moves[0]), moves[1..]);
    }
  }

  /**
   * The reset clears the LSN first, so the exception is real: a reader can pair a
   * timestamp that is still set with an LSN that is already zero.
   */
  lemma ResetWindowPairsOldTimeWithZero()
    ensures var p := Pair(0, 0, 0, Quiet, [Unread]);
      PairInv(p) && MoveAll(p, [BeginPublish(7, 5), EndPublish, BeginReset, LoadTime(0), LoadLsn(0)]).readers
                    == [GotBoth(5, 0, 7, false)]
  {
    var p := Pair(0, 0, 0, Quiet, [Unread]);
    var p3 := MovePair(MovePair(MovePair(p, BeginPublish(7, 5)), EndPublish), BeginReset);
    assert p3 == Pair(0, 5, 7, Resetting, [Unread]);
    calc {
      MoveAll(p, [BeginPublish(7, 5), EndPublish, BeginReset, LoadTime(0), LoadLsn(0)]);
      MoveAll(MovePair(p, BeginPublish(7, 5)), [EndPublish, BeginReset, LoadTime(0), LoadLsn(0)]);
      MoveAll(MovePair(MovePair(p, BeginPublish(7, 5)), EndPublish), [BeginReset, LoadTime(0), LoadLsn(0)]);
      MoveAll(p3, [LoadTime(0), LoadLsn(0)]);
      MoveAll(p3.(readers := [GotTime(5, 7, false)]), [LoadLsn(0)]);
      MoveAll(p3.(readers := [GotBoth(5, 0, 7, false)]), []);
    }
  }

  /** Undisturbed, a publication raises the LSN and stores its time, and a reset clears both. */
  lemma SectionsExact(p: Pair, lsn: nat, at: nat)
    requires p.writer == Quiet
    ensures lsn > 0 ==>
      MovePair(MovePair(p, BeginPublish(lsn, at)), EndPublish)
      == p.(lsn := if lsn > p.lsn then lsn else p.lsn, time := at, vouched := lsn)
    ensures var n := MovePair(MovePair(p, BeginReset), EndReset);
      n.lsn == 0 && n.time == 0 && n.writer == Quiet && |n.readers| == |p.readers|
  {
  }

  /** Undisturbed, a reader gets both values as they are. */
  lemma ReadExact(p: Pair, i: nat)
    requires p.writer == Quiet && i < |p.readers| && p.readers[i] == Unread
    ensures MovePair(MovePair(p, LoadTime(i)), LoadLsn(i))
      == p.(readers := p.readers[i := GotBoth(p.time, p.lsn, p.vouched, true)])
  {
  }
}
