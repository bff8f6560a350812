/**
 * What the writers of `WriterEpoch` achieve: an accepted RFQ position is stored and stays,
 * a reader gets the value it loaded, and a reset runs to its end.
 */
module WriterProgress {
  import opened WriterEpoch

  // ----- what an RFQ update and a reader achieve

  /** A whole RFQ update, undisturbed: cell and group hold the larger position, the replica maximum stays. */
  function RfqSection(st: State, id: nat): State
    requires id in st.rfqs
  {
    var r := st.rfqs[id];
    st.(cache := st.cache[r.srv := Max(Cached(st.cache, r.srv), r.obs)], group := Max(st.group, r.obs),
        guards := st.guards[r.srv := Nobody], rfqs := st.rfqs[id := r.(pc := Over)])
  }

  function RfqHalfway(st: State, id: nat): State
    requires id in st.rfqs
  {
    var r := st.rfqs[id];
    st.(guards := st.guards[r.srv := Worker(id)], rfqs := st.rfqs[id := r.(pc := Advance)])
  }

  lemma RfqFirstHalf(st: State, id: nat)
    requires id in st.rfqs && st.rfqs[id].pc == Probe && st.rfqs[id].scope == st.epoch
    requires Guard(st.guards, st.rfqs[id].srv) == Nobody
    ensures Reaches(st, RfqHalfway(st, id))
  {
    var r, step := st.rfqs[id], RfqStep(id);
    var a := st.(rfqs := st.rfqs[id := r.(pc := Lock)]);
    var b := st.(guards := st.guards[r.srv := Worker(id)], rfqs := st.rfqs[id := r.(pc := Recheck)]);
    assert Apply(st, step) == a;
    assert a.rfqs[id := r.(pc := Recheck)] == b.rfqs && Apply(a, step) == b;
    assert b.rfqs[id := r.(pc := Advance)] == RfqHalfway(st, id).rfqs;
    ThreeSteps(st, step, step, step);
  }

  lemma RfqSecondHalf(st: State, id: nat, r: Rfq)
    requires id in st.rfqs && st.rfqs[id] == r && r.pc == Advance
    ensures Reaches(st, st.(cache := st.cache[r.srv := Max(Cached(st.cache, r.srv), r.obs)],
                            group := Max(st.group, r.obs), guards := st.guards[r.srv := Nobody],
                            rfqs := st.rfqs[id := r.(pc := Over)]))
  {
    var step := RfqStep(id);
    var a := st.(cache := st.cache[r.srv := Max(Cached(st.cache, r.srv), r.obs)],
      rfqs := st.rfqs[id := r.(pc := Mirror)]);
    var b := a.(group := Max(st.group, r.obs), rfqs := st.rfqs[id := r.(pc := Unlock)]);
    assert Apply(st, step) == a;
    assert a.rfqs[id := r.(pc := Unlock)] == b.rfqs && Apply(a, step) == b;
    assert b.rfqs[id := r.(pc := Over)] == st.rfqs[id := r.(pc := Over)];
    ThreeSteps(st, step, step, step);
  }

  /** It is what the small steps of an update of the epoch in force add up to. */
  lemma RfqSectionIsItsSteps(st: State, id: nat)
    requires id in st.rfqs && st.rfqs[id].pc == Probe && st.rfqs[id].scope == st.epoch
    requires Guard(st.guards, st.rfqs[id].srv) == Nobody
    ensures Reaches(st, RfqSection(st, id))
  {
    var r, half := st.rfqs[id], RfqHalfway(st, id);
    RfqFirstHalf(st, id);
    RfqSecondHalf(half, id, r.(pc := Advance));
    assert half.guards[r.srv := Nobody] == st.guards[r.srv := Nobody];
    assert half.rfqs[id := r.(pc := Over)] == st.rfqs[id := r.(pc := Over)];
    ReachesOn(st, half, RfqSection(st, id));
  }

  /** From its arrival on: an accepted position is in the server's cell and in the group's. */
  lemma ArrivedRfqIsStored(st: State, id: nat, srv: nat, lsn: nat)
    requires id !in st.rfqs && srv in st.servers && lsn > 0 && Guard(st.guards, srv) == Nobody
    ensures var n := RfqSection(Apply(st, NewRfq(id, srv, lsn, st.epoch)), id);
      && Reaches(st, n) && n.epoch == st.epoch && n.replica == st.replica
      && Cached(n.cache, srv).lsn == (if lsn > Cached(st.cache, srv).lsn then lsn else Cached(st.cache, srv).lsn)
      && n.group.lsn == (if lsn > st.group.lsn then lsn else st.group.lsn)
  {
    var arrived := Apply(st, NewRfq(id, srv, lsn, st.epoch));
    OneStep(st, NewRfq(id, srv, lsn, st.epoch));
    RfqSectionIsItsSteps(arrived, id);
    ReachesOn(st, arrived, RfqSection(arrived, id));
  }

  predicate BeyondAdvance(pc: RfqPc) {
    pc.Mirror? || pc.Unlock? || pc.Over?
  }

  predicate BeyondMirror(pc: RfqPc) {
    pc.Unlock? || pc.Over?
  }

  /** An update of the epoch in force that is past its stores is covered by cell and group. */
  ghost predicate Covered(epoch: nat, group: Cell, cache: map<nat, Cell>, r: Rfq) {
    r.scope == epoch ==>
      && (BeyondAdvance(r.pc) ==> r.obs.lsn <= Cached(cache, r.srv).lsn)
      && (BeyondMirror(r.pc) ==> r.obs.lsn <= group.lsn)
  }

  /** Between the first clear of a reset and the new epoch the cells are on their way to zero. */
  predicate Zeroing(job: Job) {
    job.ClearReplica? || job.Clearing? || job.Bump?
  }

  ghost predicate Stored(st: State) {
    forall id :: id in st.rfqs ==>
      st.rfqs[id].scope <= st.epoch && (!Zeroing(st.job) ==> Covered(st.epoch, st.group, st.cache, st.rfqs[id]))
  }

  lemma CoveredRises(epoch: nat, g: Cell, c: map<nat, Cell>, g2: Cell, c2: map<nat, Cell>, r: Rfq)
    requires Covered(epoch, g, c, r) && g.lsn <= g2.lsn && Cached(c, r.srv).lsn <= Cached(c2, r.srv).lsn
    ensures Covered(epoch, g2, c2, r)
  {
  }

  /** The update's own step stores before it goes on. */
  lemma OwnStepCovers(st: State, id: nat)
    requires id in st.rfqs && Covered(st.epoch, st.group, st.cache, st.rfqs[id])
    ensures var n := StepRfq(st, id); Covered(n.epoch, n.group, n.cache, n.rfqs[id])
  {
  }

  lemma RfqKeepsStored(st: State, id: nat)
    requires Stored(st) && id in st.rfqs
    ensures Stored(StepRfq(st, id))
  {
    var n := StepRfq(st, id);
    if !Zeroing(st.job) {
      OwnStepCovers(st, id);
      RfqRaises(st, id);
      forall x | x in n.rfqs && x != id ensures Covered(n.epoch, n.group, n.cache, n.rfqs[x]) {
        CoveredRises(st.epoch, st.group, st.cache, n.group, n.cache, st.rfqs[x]);
      }
    }
  }

  lemma MonitorRaises(st: State)
    requires InMonitor(st.job)
    ensures var n := StepMonitor(st);
      && st.group.lsn <= n.group.lsn && (forall s :: Cached(st.cache, s).lsn <= Cached(n.cache, s).lsn)
      && !Zeroing(n.job)
  {
  }

  lemma ManagerKeepsStored(st: State, srv: nat)
    requires Stored(st)
    ensures Stored(StepManager(st, srv))
  {
    var n := StepManager(st, srv);
    if InMonitor(st.job) {
      MonitorRaises(st);
      forall x | x in n.rfqs ensures Covered(n.epoch, n.group, n.cache, n.rfqs[x]) {
        CoveredRises(st.epoch, st.group, st.cache, n.group, n.cache, st.rfqs[x]);
      }
    } else if IsClearing(st.job) {
      assert Zeroing(n.job);
    } else if st.job == Bump {
      assert n.epoch == st.epoch + 1;
    } else {
      assert n.epoch == st.epoch;
    }
  }

  lemma StoredStep(st: State, step: Step)
    requires Stored(st)
    ensures Stored(Apply(st, step))
  {
    match step
    case RfqStep(id) => if id in st.rfqs { RfqKeepsStored(st, id); }
    case ManagerStep(srv) => ManagerKeepsStored(st, srv);
    case _ =>
  }

  /**
   * In every run, with no condition on its samples, whatever an RFQ update of the epoch in
   * force has stored stays in its server's cell and in the group's until a reset clears them.
   */
  lemma {:induction false} AcceptedPositionsStay(st: State, steps: seq<Step>)
    requires Stored(st)
    ensures Stored(Run(st, steps))
    decreases |steps|
  {
    if steps != [] {
      StoredStep(st, steps[0]);
      AcceptedPositionsStay(Apply(st, steps[0]), steps[1..]);
    }
  }

  /** From the start: an update past its stores, in its own epoch and outside a reset, is not lost. */
  lemma AcceptedFromStart(servers: set<nat>, steps: seq<Step>, id: nat)
    ensures var st := Run(Initial(servers), steps);
      id in st.rfqs && st.rfqs[id].scope == st.epoch && BeyondMirror(st.rfqs[id].pc) && !Zeroing(st.job) ==>
        var r := st.rfqs[id];
        r.obs.lsn <= Cached(st.cache, r.srv).lsn && r.obs.lsn <= st.group.lsn
  {
    AcceptedPositionsStay(Initial(servers), steps);
  }

  /** Nobody but the reader itself moves it. */
  lemma {:induction false} OthersLeaveReader(st: State, steps: seq<Step>, id: nat)
    requires id in st.readers && forall i :: 0 <= i < |steps| ==> steps[i] != ReadStep(id)
    ensures id in Run(st, steps).readers && Run(st, steps).readers[id] == st.readers[id]
    decreases |steps|
  {
    if steps != [] {
      OtherLeavesReader(st, steps[0], id);
      OthersLeaveReader(Apply(st, steps[0]), steps[1..], id);
    }
  }

  lemma OtherLeavesReader(st: State, step: Step, id: nat)
    requires id in st.readers && step != ReadStep(id)
    ensures id in Apply(st, step).readers && Apply(st, step).readers[id] == st.readers[id]
  {
  }

  /**
   * A reader answers the replica maximum as it was at its second access when both of its
   * epoch loads find its own epoch, whatever happens in between, and zero otherwise.
   */
  lemma ReaderAnswersExactly(st: State, id: nat, scope: nat, a: seq<Step>, b: seq<Step>)
    requires id !in st.readers
    requires forall i :: 0 <= i < |a| ==> a[i] != ReadStep(id)
    requires forall i :: 0 <= i < |b| ==> b[i] != ReadStep(id)
    ensures var started := Apply(Apply(st, NewReader(id, scope)), ReadStep(id));
      var loading := Run(started, a);
      var loaded := Run(Apply(loading, ReadStep(id)), b);
      var n := Apply(loaded, ReadStep(id));
      st.epoch == scope ==>
        id in n.readers && n.readers[id] == Answer(scope, if loaded.epoch == scope then loading.replica else EMPTY)
    ensures st.epoch != scope ==>
      Apply(Apply(st, NewReader(id, scope)), ReadStep(id)).readers[id] == Answer(scope, EMPTY)
  {
    var started := Apply(Apply(st, NewReader(id, scope)), ReadStep(id));
    if st.epoch == scope {
      OthersLeaveReader(started, a, id);
      OthersLeaveReader(Apply(Run(started, a), ReadStep(id)), b, id);
    }
  }

  // ----- a reset ends, with any servers

  /** Only guards and job differ. */
  ghost predicate SameCells(st: State, n: State) {
    && n.servers == st.servers && n.epoch == st.epoch && n.group == st.group && n.replica == st.replica
    && n.cache == st.cache && n.rfqs == st.rfqs && n.samples == st.samples && n.readers == st.readers
  }

  lemma {:induction false} GuardsAreTaken(st: State, todo: set<nat>) returns (n: State)
    requires st.job == Locking(todo) && forall s :: s in todo ==> Guard(st.guards, s) == Nobody
    ensures Reaches(st, n) && n.job == ClearGroup && SameCells(st, n)
    decreases todo
  {
    var srv :| todo == {} || srv in todo;
    var next := Apply(st, ManagerStep(srv));
    OneStep(st, ManagerStep(srv));
    if todo == {} {
      n := next;
    } else {
      n := GuardsAreTaken(next, todo - {srv});
      ReachesOn(st, next, n);
    }
  }

  lemma {:induction false} CellsAreCleared(st: State, todo: set<nat>) returns (n: State)
    requires st.job == Clearing(todo) && Cleared(st.cache, todo)
    ensures Reaches(st, n) && n.job == Bump && Cleared(n.cache, {})
    ensures ManagerFrame(st, n) && n.epoch == st.epoch && n.group == st.group && n.replica == st.replica
    decreases todo
  {
    var srv :| todo == {} || srv in todo;
    var next := Apply(st, ManagerStep(srv));
    OneStep(st, ManagerStep(srv));
    if todo == {} {
      n := next;
    } else {
      n := CellsAreCleared(next, todo - {srv});
      ReachesOn(st, next, n);
    }
  }

  lemma {:induction false} GuardsAreFreed(st: State, todo: set<nat>) returns (n: State)
    requires st.job == Unlocking(todo)
    ensures Reaches(st, n) && n.job == Idle && SameCells(st, n)
    ensures forall s :: s in todo || Guard(st.guards, s) == Nobody ==> Guard(n.guards, s) == Nobody
    decreases todo
  {
    var srv :| todo == {} || srv in todo;
    var next := Apply(st, ManagerStep(srv));
    OneStep(st, ManagerStep(srv));
    if todo == {} {
      n := next;
    } else {
      n := GuardsAreFreed(next, todo - {srv});
      ReachesOn(st, next, n);
    }
  }

  /** Its first part: every guard, then the two maxima. */
  lemma ResetReachesCells(st: State) returns (n: State)
    requires st.job == Idle && forall s :: s in st.servers ==> Guard(st.guards, s) == Nobody
    ensures Reaches(st, n) && n.job == Clearing(st.servers) && n.group == n.replica == EMPTY
    ensures ManagerFrame(st, n) && n.epoch == st.epoch && n.cache == st.cache
  {
    var started := st.(job := Locking(st.servers));
    assert Apply(st, StartReset) == started;
    OneStep(st, StartReset);
    var locked := GuardsAreTaken(started, st.servers);
    n := MaximaAreCleared(locked);
    ReachesOn(st, started, locked);
    ReachesOn(st, locked, n);
  }

  lemma MaximaAreCleared(st: State) returns (n: State)
    requires st.job == ClearGroup
    ensures Reaches(st, n) && n == st.(group := EMPTY, replica := EMPTY, job := Clearing(st.servers))
  {
    var m := ManagerStep(0);
    var a := st.(group := EMPTY, job := ClearReplica);
    assert Apply(st, m) == a;
    n := st.(group := EMPTY, replica := EMPTY, job := Clearing(st.servers));
    assert Apply(a, m) == n;
    OneStep(st, m);
    OneStep(a, m);
    ReachesOn(st, a, n);
  }

  /** Its last part: the new epoch, then every guard. */
  lemma ResetReleases(st: State) returns (n: State)
    requires st.job == Bump
    ensures Reaches(st, n) && n.job == Idle && n.epoch == st.epoch + 1
    ensures ManagerFrame(st, n) && n.group == st.group && n.replica == st.replica && n.cache == st.cache
    ensures forall s :: s in st.servers ==> Guard(n.guards, s) == Nobody
  {
    OneStep(st, ManagerStep(0));
    n := GuardsAreFreed(Apply(st, ManagerStep(0)), st.servers);
    ReachesOn(st, Apply(st, ManagerStep(0)), n);
  }

  /** Once the guards of the group are free, a reset runs to its end: one epoch further, every cell empty. */
  lemma ResetCompletes(st: State) returns (n: State)
    requires st.job == Idle && st.cache.Keys <= st.servers
    requires forall s :: s in st.servers ==> Guard(st.guards, s) == Nobody
    ensures Reaches(st, n) && n.job == Idle && n.epoch == st.epoch + 1 && n.group == n.replica == EMPTY
    ensures forall s :: Cached(n.cache, s) == EMPTY
    ensures forall s :: s in st.servers ==> Guard(n.guards, s) == Nobody
    ensures ManagerFrame(st, n)
  {
    var clearing := ResetReachesCells(st);
    var cleared := CellsAreCleared(clearing, st.servers);
    n := ResetReleases(cleared);
    ReachesOn(st, clearing, cleared);
    ReachesOn(st, cleared, n);
  }
}
