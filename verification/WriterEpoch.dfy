/**
 * The LSN caches of one replication group as their writers interleave: RFQ updates
 * (one guard, an epoch check under it, then the stores), monitor updates and writer
 * changes (both under the manager's write lock). Each transition is one atomic access.
 */
module WriterEpoch {

  /** A cached position; `seen` is the writer epoch in force when it was reported. */
  datatype Cell = Cell(lsn: nat, seen: nat)

  const EMPTY := Cell(0, 0)

  function Max(c: Cell, o: Cell): Cell {
    if o.lsn > c.lsn then o else c
  }

  datatype Owner = Nobody | Manager | Worker(id: nat)

  /** Where an RFQ update stands. `scope` is the epoch its request was planned under. */
  datatype RfqPc = Probe | Lock | Recheck | Advance | Mirror | Unlock | Over

  datatype Rfq = Rfq(srv: nat, obs: Cell, scope: nat, pc: RfqPc)

  datatype Sample = Sample(srv: nat, obs: Cell, replica: bool)

  /** What the holder of the manager's write lock is doing. */
  datatype Job =
    | Idle
    | MonLock(s: Sample) | MonAdvance(s: Sample) | MonMirror(s: Sample) | MonReplica(s: Sample) | MonUnlock(s: Sample)
    | Locking(todo: set<nat>) | ClearGroup | ClearReplica | Clearing(todo: set<nat>) | Bump | Unlocking(todo: set<nat>)

  /** A reader of the replica maximum: epoch, value, epoch again. */
  datatype Reader = First(scope: nat) | Second(scope: nat) | Third(scope: nat, value: Cell)
      | Answer(scope: nat, value: Cell)

  /** `servers` are those listed in the group's writer and reader hostgroups. */
  datatype State = State(
    servers: set<nat>, epoch: nat, group: Cell, replica: Cell, cache: map<nat, Cell>, guards: map<nat, Owner>,
    job: Job, rfqs: map<nat, Rfq>, samples: set<Sample>, readers: map<nat, Reader>)

  datatype Step =
    | NewRfq(id: nat, srv: nat, lsn: nat, scope: nat)     // a query result arrives
    | NewSample(srv: nat, lsn: nat, replica: bool)        // a health check is answered
    | NewReader(id: nat, scope: nat)
    | RfqStep(id: nat) | ReadStep(id: nat)
    | StartMonitor(s: Sample) | StartReset | ManagerStep(srv: nat)

  function Guard(guards: map<nat, Owner>, srv: nat): Owner {
    if srv in guards then guards[srv] else Nobody
  }

  function Cached(cache: map<nat, Cell>, srv: nat): Cell {
    if srv in cache then cache[srv] else EMPTY
  }

  function SetRfq(st: State, id: nat, r: Rfq, pc: RfqPc): State {
    st.(rfqs := st.rfqs[id := r.(pc := pc)])
  }

  /** `polardb_accept_rfq_server_lsn`, one access at a time. */
  function StepRfq(st: State, id: nat): (n: State)
    requires id in st.rfqs
    ensures n.servers == st.servers && n.epoch == st.epoch && n.job == st.job && n.replica == st.replica
    ensures n.readers == st.readers && n.samples == st.samples
    ensures id in n.rfqs && n.rfqs[id] == st.rfqs[id].(pc := n.rfqs[id].pc) && n.rfqs == st.rfqs[id := n.rfqs[id]]
  {
    var r := st.rfqs[id];
    assert st.rfqs[id := r] == st.rfqs;
    match r.pc
    case Probe => SetRfq(st, id, r, if r.scope == st.epoch then Lock else Over)
    case Lock =>
      if Guard(st.guards, r.srv) == Nobody
      then SetRfq(st.(guards := st.guards[r.srv := Worker(id)]), id, r, Recheck) else st
    case Recheck => SetRfq(st, id, r, if r.scope == st.epoch then Advance else Unlock)
    case Advance => SetRfq(st.(cache := st.cache[r.srv := Max(Cached(st.cache, r.srv), r.obs)]), id, r, Mirror)
    case Mirror => SetRfq(st.(group := Max(st.group, r.obs)), id, r, Unlock)
    case Unlock => SetRfq(st.(guards := st.guards[r.srv := Nobody]), id, r, Over)
    case Over => st
  }

  /** `get_polardb_max_replica_replay_lsn`: the value counts only between two equal epoch loads. */
  function StepReader(st: State, id: nat): State
    requires id in st.readers
  {
    match st.readers[id]
    case First(scope) =>
      st.(readers := st.readers[id := if st.epoch == scope then Second(scope) else Answer(scope, EMPTY)])
    case Second(scope) => st.(readers := st.readers[id := Third(scope, st.replica)])
    case Third(scope, v) => st.(readers := st.readers[id := Answer(scope, if st.epoch == scope then v else EMPTY)])
    case Answer(_, _) => st
  }

  predicate InMonitor(j: Job) {
    j.MonLock? || j.MonAdvance? || j.MonMirror? || j.MonReplica? || j.MonUnlock?
  }

  predicate IsClearing(j: Job) {
    j.ClearGroup? || j.ClearReplica? || j.Clearing?
  }

  /** No access of the manager touches RFQ updates, readers or the set of servers. */
  ghost predicate ManagerFrame(st: State, n: State) {
    n.servers == st.servers && n.rfqs == st.rfqs && n.readers == st.readers && n.samples == st.samples
  }

  /** The monitor update, one access at a time. */
  function StepMonitor(st: State): (n: State)
    requires InMonitor(st.job)
    ensures ManagerFrame(st, n) && n.epoch == st.epoch
  {
    match st.job
    case MonLock(s) =>
      if Guard(st.guards, s.srv) == Nobody then st.(guards := st.guards[s.srv := Manager], job := MonAdvance(s)) else st
    case MonAdvance(s) => st.(cache := st.cache[s.srv := Max(Cached(st.cache, s.srv), s.obs)], job := MonMirror(s))
    case MonMirror(s) => st.(group := Max(st.group, s.obs), job := MonReplica(s))
    case MonReplica(s) => st.(replica := if s.replica then Max(st.replica, s.obs) else st.replica, job := MonUnlock(s))
    case MonUnlock(s) => st.(guards := st.guards[s.srv := Nobody], job := Idle)
  }

  /** The clears of a writer change, one access at a time; `srv` picks the next cell. */
  function StepClearing(st: State, srv: nat): (n: State)
    requires IsClearing(st.job)
    ensures ManagerFrame(st, n) && n.epoch == st.epoch && n.guards == st.guards
  {
    match st.job
    case ClearGroup => st.(group := EMPTY, job := ClearReplica)
    case ClearReplica => st.(replica := EMPTY, job := Clearing(st.servers))
    case Clearing(todo) =>
      if todo == {} then st.(job := Bump)
      else if srv in todo then st.(cache := st.cache[srv := EMPTY], job := Clearing(todo - {srv})) else st
  }

  /** Its guards and the new epoch; `srv` picks the next guard. */
  function StepLocking(st: State, srv: nat): (n: State)
    requires !InMonitor(st.job) && !IsClearing(st.job)
    ensures ManagerFrame(st, n) && n.group == st.group && n.replica == st.replica && n.cache == st.cache
    ensures n.epoch == st.epoch + (if st.job == Bump then 1 else 0)
  {
    match st.job
    case Idle => st
    case Locking(todo) =>
      if todo == {} then st.(job := ClearGroup)
      else if srv in todo && Guard(st.guards, srv) == Nobody
      then st.(guards := st.guards[srv := Manager], job := Locking(todo - {srv})) else st
    case Bump => st.(epoch := st.epoch + 1, job := Unlocking(st.servers))
    case Unlocking(todo) =>
      if todo == {} then st.(job := Idle)
      else if srv in todo then st.(guards := st.guards[srv := Nobody], job := Unlocking(todo - {srv})) else st
  }

  /** One access of whoever holds the manager's write lock. */
  function StepManager(st: State, srv: nat): State {
    if InMonitor(st.job) then StepMonitor(st)
    else if IsClearing(st.job) then StepClearing(st, srv)
    else StepLocking(st, srv)
  }

  function Apply(st: State, step: Step): State {
    match step
    case NewRfq(id, srv, lsn, scope) =>
      if id !in st.rfqs && srv in st.servers && lsn > 0 && scope <= st.epoch
      then st.(rfqs := st.rfqs[id := Rfq(srv, Cell(lsn, st.epoch), scope, Probe)]) else st
    case NewSample(srv, lsn, replica) => st.(samples := st.samples + {Sample(srv, Cell(lsn, st.epoch), replica)})
    case NewReader(id, scope) => if id !in st.readers then st.(readers := st.readers[id := First(scope)]) else st
    case RfqStep(id) => if id in st.rfqs then StepRfq(st, id) else st
    case ReadStep(id) => if id in st.readers then StepReader(st, id) else st
    case StartMonitor(s) =>
      if st.job == Idle && s in st.samples && s.srv in st.servers then st.(job := MonLock(s)) else st
    case StartReset => if st.job == Idle then st.(job := Locking(st.servers)) else st
    case ManagerStep(srv) => StepManager(st, srv)
  }

  // ----- the invariant

  /** The position was reported in the epoch now in force, or there is none. */
  predicate Current(epoch: nat, c: Cell) {
    c.lsn == 0 || c.seen == epoch
  }

  ghost predicate CellsCurrent(epoch: nat, group: Cell, replica: Cell, cache: map<nat, Cell>) {
    && Current(epoch, group) && Current(epoch, replica)
    && forall s :: Current(epoch, Cached(cache, s))
  }

  /** Between its lock and its unlock an RFQ update owns the server's guard. */
  predicate HoldsGuard(pc: RfqPc) {
    pc.Recheck? || pc.Advance? || pc.Mirror? || pc.Unlock?
  }

  predicate Storing(pc: RfqPc) {
    pc.Advance? || pc.Mirror?
  }

  ghost predicate RfqOk(servers: set<nat>, guards: map<nat, Owner>, epoch: nat, id: nat, r: Rfq) {
    && r.srv in servers && r.scope <= r.obs.seen <= epoch
    && (HoldsGuard(r.pc) ==> Guard(guards, r.srv) == Worker(id))
    && (Storing(r.pc) ==> r.scope == epoch)
  }

  ghost predicate RfqsOk(servers: set<nat>, guards: map<nat, Owner>, epoch: nat, rfqs: map<nat, Rfq>) {
    forall id :: id in rfqs ==> RfqOk(servers, guards, epoch, id, rfqs[id])
  }

  ghost predicate Locked(guards: map<nat, Owner>, servers: set<nat>, except: set<nat>) {
    forall s :: s in servers && s !in except ==> Guard(guards, s) == Manager
  }

  ghost predicate Cleared(cache: map<nat, Cell>, except: set<nat>) {
    forall s :: s !in except ==> Cached(cache, s) == EMPTY
  }

  /** The guards the manager holds, and what it has cleared, at each stage of its job. */
  ghost predicate JobOk(servers: set<nat>, guards: map<nat, Owner>, group: Cell, replica: Cell, cache: map<nat, Cell>,
                        job: Job) {
    match job
    case Idle => true
    case MonLock(s) => s.srv in servers
    case MonAdvance(s) => s.srv in servers && Guard(guards, s.srv) == Manager
    case MonMirror(s) => s.srv in servers && Guard(guards, s.srv) == Manager
    case MonReplica(s) => s.srv in servers && Guard(guards, s.srv) == Manager && s.obs.lsn <= group.lsn
    case MonUnlock(s) => s.srv in servers && Guard(guards, s.srv) == Manager
    case Locking(todo) => todo <= servers && Locked(guards, servers, todo)
    case ClearGroup => Locked(guards, servers, {})
    case ClearReplica => Locked(guards, servers, {}) && group == EMPTY
    case Clearing(todo) =>
      todo <= servers && Locked(guards, servers, {}) && group == EMPTY && replica == EMPTY && Cleared(cache, todo)
    case Bump => Locked(guards, servers, {}) && group == EMPTY && replica == EMPTY && Cleared(cache, {})
    case Unlocking(todo) => todo <= servers && Locked(guards, todo, {})
  }

  ghost predicate ReaderOk(epoch: nat, r: Reader) {
    match r
    case First(_) => true
    case Second(scope) => scope <= epoch
    case Third(scope, v) => scope <= epoch && (v.lsn == 0 || scope <= v.seen <= epoch)
    case Answer(scope, v) => v.lsn == 0 || v.seen == scope
  }

  ghost predicate ReadersOk(epoch: nat, readers: map<nat, Reader>) {
    forall id :: id in readers ==> ReaderOk(epoch, readers[id])
  }

  ghost predicate Inv(st: State) {
    && CellsCurrent(st.epoch, st.group, st.replica, st.cache)
    && RfqsOk(st.servers, st.guards, st.epoch, st.rfqs)
    && JobOk(st.servers, st.guards, st.group, st.replica, st.cache, st.job)
    && ReadersOk(st.epoch, st.readers)
    && (InMonitor(st.job) ==> Harmless(st.epoch, st.group, st.replica, st.cache, st.job.s))
    && (st.job != ClearReplica ==> st.replica.lsn <= st.group.lsn)
    && st.cache.Keys <= st.servers
  }

  /** The sample is of the epoch in force, or exceeds none of the cells it is offered to. */
  predicate Harmless(epoch: nat, group: Cell, replica: Cell, cache: map<nat, Cell>, s: Sample) {
    || s.obs.seen == epoch
    || (s.obs.lsn <= Cached(cache, s.srv).lsn && s.obs.lsn <= group.lsn && (s.replica ==> s.obs.lsn <= replica.lsn))
  }

  /** A monitor update starts only with such a sample. */
  predicate Timely(st: State, step: Step) {
    step.StartMonitor? ==> Harmless(st.epoch, st.group, st.replica, st.cache, step.s)
  }

  // ----- each access keeps it

  /** While the manager holds every guard, no RFQ update is between its recheck and its unlock. */
  lemma LockedExcludesRfq(servers: set<nat>, guards: map<nat, Owner>, epoch: nat, rfqs: map<nat, Rfq>, id: nat)
    requires RfqsOk(servers, guards, epoch, rfqs) && id in rfqs && Locked(guards, servers, {})
    ensures !HoldsGuard(rfqs[id].pc)
  {
    assert RfqOk(servers, guards, epoch, id, rfqs[id]);
    assert Guard(guards, rfqs[id].srv) == Manager;
  }

  /** One update moved on; the others keep their guards. */
  lemma OthersKeepGuards(servers: set<nat>, g: map<nat, Owner>, g2: map<nat, Owner>, epoch: nat, rfqs: map<nat, Rfq>,
                         id: nat, r2: Rfq)
    requires RfqsOk(servers, g, epoch, rfqs) && RfqOk(servers, g2, epoch, id, r2)
    requires forall s, x {:trigger Guard(g2, s), Worker(x)} ::
      x != id && Guard(g, s) == Worker(x) ==> Guard(g2, s) == Worker(x)
    ensures RfqsOk(servers, g2, epoch, rfqs[id := r2])
  {
    forall x | x in rfqs && x != id ensures RfqOk(servers, g2, epoch, x, rfqs[x]) {
      assert RfqOk(servers, g, epoch, x, rfqs[x]);
      assert Guard(g2, rfqs[x].srv) == Worker(x) || !HoldsGuard(rfqs[x].pc);
    }
  }

  lemma RfqKeepsOtherGuards(st: State, id: nat)
    requires id in st.rfqs && RfqOk(st.servers, st.guards, st.epoch, id, st.rfqs[id])
    ensures forall s, x {:trigger Guard(StepRfq(st, id).guards, s), Worker(x)} ::
      x != id && Guard(st.guards, s) == Worker(x) ==> Guard(StepRfq(st, id).guards, s) == Worker(x)
  {
  }

  lemma RfqStepOk(st: State, id: nat)
    requires id in st.rfqs && RfqOk(st.servers, st.guards, st.epoch, id, st.rfqs[id])
    ensures var n := StepRfq(st, id);
      id in n.rfqs && RfqOk(n.servers, n.guards, n.epoch, id, n.rfqs[id]) && n.rfqs == st.rfqs[id := n.rfqs[id]]
  {
    assert st.rfqs[id := st.rfqs[id]] == st.rfqs;
  }

  lemma RfqKeepsRfqs(st: State, id: nat)
    requires RfqsOk(st.servers, st.guards, st.epoch, st.rfqs) && id in st.rfqs
    ensures var n := StepRfq(st, id); RfqsOk(n.servers, n.guards, n.epoch, n.rfqs)
  {
    RfqStepOk(st, id);
    RfqKeepsOtherGuards(st, id);
    var n := StepRfq(st, id);
    OthersKeepGuards(st.servers, st.guards, n.guards, st.epoch, st.rfqs, id, n.rfqs[id]);
  }

  lemma RfqKeepsJob(st: State, id: nat)
    requires Inv(st) && id in st.rfqs
    ensures var n := StepRfq(st, id); JobOk(n.servers, n.guards, n.group, n.replica, n.cache, n.job)
  {
    var n, r := StepRfq(st, id), st.rfqs[id];
    assert RfqOk(st.servers, st.guards, st.epoch, id, r);
    forall s | Guard(st.guards, s) == Manager ensures Guard(n.guards, s) == Manager {
    }
    if Locked(st.guards, st.servers, {}) {
      LockedExcludesRfq(st.servers, st.guards, st.epoch, st.rfqs, id);
    }
  }

  lemma StoreKeepsCells(epoch: nat, group: Cell, replica: Cell, cache: map<nat, Cell>, srv: nat, obs: Cell)
    requires CellsCurrent(epoch, group, replica, cache) && (Current(epoch, obs) || obs.lsn <= Cached(cache, srv).lsn)
    ensures CellsCurrent(epoch, group, replica, cache[srv := Max(Cached(cache, srv), obs)])
  {
    var raised := cache[srv := Max(Cached(cache, srv), obs)];
    forall s ensures Current(epoch, Cached(raised, s)) {
      assert Current(epoch, Cached(cache, s));
    }
  }

  lemma RfqKeepsCells(st: State, id: nat)
    requires CellsCurrent(st.epoch, st.group, st.replica, st.cache)
    requires id in st.rfqs && RfqOk(st.servers, st.guards, st.epoch, id, st.rfqs[id])
    ensures var n := StepRfq(st, id); CellsCurrent(n.epoch, n.group, n.replica, n.cache)
  {
    var r := st.rfqs[id];
    if Storing(r.pc) {
      StoreKeepsCells(st.epoch, st.group, st.replica, st.cache, r.srv, r.obs);
    }
  }

  /** An RFQ update only raises the cells, so it makes no monitor sample harmful. */
  lemma RfqKeepsOrder(st: State, id: nat)
    requires Inv(st) && id in st.rfqs
    ensures var n := StepRfq(st, id);
      && (n.job != ClearReplica ==> n.replica.lsn <= n.group.lsn) && n.cache.Keys <= n.servers
      && (InMonitor(n.job) ==> Harmless(n.epoch, n.group, n.replica, n.cache, n.job.s))
  {
    assert RfqOk(st.servers, st.guards, st.epoch, id, st.rfqs[id]);
    RfqRaises(st, id);
  }

  lemma RfqRaises(st: State, id: nat)
    requires id in st.rfqs
    ensures var n := StepRfq(st, id);
      && n.epoch == st.epoch && n.job == st.job && n.replica == st.replica && st.group.lsn <= n.group.lsn
      && forall s :: Cached(st.cache, s).lsn <= Cached(n.cache, s).lsn
  {
  }

  lemma RfqKeeps(st: State, id: nat)
    requires Inv(st) && id in st.rfqs
    ensures Inv(StepRfq(st, id))
  {
    assert RfqOk(st.servers, st.guards, st.epoch, id, st.rfqs[id]);
    RfqKeepsRfqs(st, id);
    RfqKeepsJob(st, id);
    RfqKeepsCells(st, id);
    RfqKeepsOrder(st, id);
  }

  /** The manager never takes a guard away from an RFQ update. */
  lemma ManagerKeepsGuards(st: State, srv: nat)
    requires JobOk(st.servers, st.guards, st.group, st.replica, st.cache, st.job)
    ensures forall s, id {:trigger Guard(StepManager(st, srv).guards, s), Worker(id)} ::
      Guard(st.guards, s) == Worker(id) ==> Guard(StepManager(st, srv).guards, s) == Worker(id)
  {
  }

  lemma RfqsSurvive(servers: set<nat>, g: map<nat, Owner>, g2: map<nat, Owner>, epoch: nat, rfqs: map<nat, Rfq>)
    requires RfqsOk(servers, g, epoch, rfqs)
    requires forall s, id {:trigger Guard(g2, s), Worker(id)} ::
      Guard(g, s) == Worker(id) ==> Guard(g2, s) == Worker(id)
    ensures RfqsOk(servers, g2, epoch, rfqs)
  {
    forall x | x in rfqs ensures RfqOk(servers, g2, epoch, x, rfqs[x]) {
      assert RfqOk(servers, g, epoch, x, rfqs[x]);
      assert Guard(g2, rfqs[x].srv) == Worker(x) || !HoldsGuard(rfqs[x].pc);
    }
  }

  /** When the epoch moves every guard is the manager's, so no update is storing. */
  lemma RfqsSurviveBump(servers: set<nat>, g: map<nat, Owner>, epoch: nat, rfqs: map<nat, Rfq>)
    requires RfqsOk(servers, g, epoch, rfqs) && Locked(g, servers, {})
    ensures RfqsOk(servers, g, epoch + 1, rfqs)
  {
    forall x | x in rfqs ensures RfqOk(servers, g, epoch + 1, x, rfqs[x]) {
      assert RfqOk(servers, g, epoch, x, rfqs[x]);
      LockedExcludesRfq(servers, g, epoch, rfqs, x);
    }
  }

  lemma ManagerKeepsRfqs(st: State, srv: nat)
    requires RfqsOk(st.servers, st.guards, st.epoch, st.rfqs)
    requires JobOk(st.servers, st.guards, st.group, st.replica, st.cache, st.job)
    ensures var n := StepManager(st, srv); RfqsOk(n.servers, n.guards, n.epoch, n.rfqs)
  {
    ManagerKeepsGuards(st, srv);
    RfqsSurvive(st.servers, st.guards, StepManager(st, srv).guards, st.epoch, st.rfqs);
    if st.job == Bump {
      RfqsSurviveBump(st.servers, st.guards, st.epoch, st.rfqs);
    }
  }

  /** The order of the two maxima, and that the sample in hand stays harmless. */
  ghost predicate Ordered(st: State) {
    && (st.job != ClearReplica ==> st.replica.lsn <= st.group.lsn) && st.cache.Keys <= st.servers
    && (InMonitor(st.job) ==> Harmless(st.epoch, st.group, st.replica, st.cache, st.job.s))
  }

  /** What the manager's accesses keep of the cells and of its own job. */
  ghost predicate ManagerInv(st: State) {
    && CellsCurrent(st.epoch, st.group, st.replica, st.cache) && Ordered(st)
    && JobOk(st.servers, st.guards, st.group, st.replica, st.cache, st.job)
  }

  lemma MonitorKeeps(st: State)
    requires InMonitor(st.job) && ManagerInv(st)
    ensures ManagerInv(StepMonitor(st))
  {
    StoreKeepsCells(st.epoch, st.group, st.replica, st.cache, st.job.s.srv, st.job.s.obs);
  }

  lemma ClearOneCell(epoch: nat, group: Cell, replica: Cell, cache: map<nat, Cell>, todo: set<nat>, srv: nat)
    requires CellsCurrent(epoch, group, replica, cache) && Cleared(cache, todo) && srv in todo
    ensures CellsCurrent(epoch, group, replica, cache[srv := EMPTY]) && Cleared(cache[srv := EMPTY], todo - {srv})
  {
    var n := cache[srv := EMPTY];
    forall s ensures Cached(n, s) == if s == srv then EMPTY else Cached(cache, s) {
    }
  }

  lemma ClearingKeeps(st: State, srv: nat)
    requires IsClearing(st.job) && ManagerInv(st)
    ensures ManagerInv(StepClearing(st, srv))
  {
    if st.job.Clearing? && srv in st.job.todo {
      ClearOneCell(st.epoch, st.group, st.replica, st.cache, st.job.todo, srv);
    }
    forall s | s !in st.servers ensures Cached(st.cache, s) == EMPTY {
    }
  }

  lemma LockOne(servers: set<nat>, guards: map<nat, Owner>, todo: set<nat>, srv: nat)
    requires Locked(guards, servers, todo) && srv in todo
    ensures Locked(guards[srv := Manager], servers, todo - {srv})
  {
    var n := guards[srv := Manager];
    forall s ensures Guard(n, s) == if s == srv then Manager else Guard(guards, s) {
    }
  }

  lemma UnlockOne(guards: map<nat, Owner>, todo: set<nat>, srv: nat)
    requires Locked(guards, todo, {}) && srv in todo
    ensures Locked(guards[srv := Nobody], todo - {srv}, {})
  {
    var n := guards[srv := Nobody];
    forall s ensures Guard(n, s) == if s == srv then Nobody else Guard(guards, s) {
    }
  }

  lemma BumpKeeps(st: State, srv: nat)
    requires st.job == Bump && ManagerInv(st)
    ensures ManagerInv(StepLocking(st, srv))
  {
    forall s ensures Cached(st.cache, s) == EMPTY {
    }
  }

  lemma LockingKeeps(st: State, srv: nat)
    requires !InMonitor(st.job) && !IsClearing(st.job) && ManagerInv(st)
    ensures ManagerInv(StepLocking(st, srv))
  {
    match st.job
    case Locking(todo) => if srv in todo { LockOne(st.servers, st.guards, todo, srv); }
    case Unlocking(todo) => if srv in todo { UnlockOne(st.guards, todo, srv); }
    case Bump => BumpKeeps(st, srv);
    case Idle =>
  }

  lemma ManagerKeeps(st: State, srv: nat)
    requires Inv(st)
    ensures Inv(StepManager(st, srv))
  {
    ManagerKeepsRfqs(st, srv);
    ReadersSurviveBump(st.epoch, st.readers);
    if InMonitor(st.job) {
      MonitorKeeps(st);
    } else if IsClearing(st.job) {
      ClearingKeeps(st, srv);
    } else {
      LockingKeeps(st, srv);
    }
  }

  lemma ReadersSurviveBump(epoch: nat, readers: map<nat, Reader>)
    requires ReadersOk(epoch, readers)
    ensures ReadersOk(epoch + 1, readers)
  {
    forall id | id in readers ensures ReaderOk(epoch + 1, readers[id]) {
      assert ReaderOk(epoch, readers[id]);
    }
  }

  lemma ReadKeeps(st: State, id: nat)
    requires Inv(st) && id in st.readers
    ensures Inv(StepReader(st, id))
  {
    assert ReaderOk(st.epoch, st.readers[id]);
  }

  lemma ArrivalKeeps(st: State, step: Step)
    requires Inv(st) && Timely(st, step) && !step.RfqStep? && !step.ReadStep? && !step.ManagerStep?
    ensures Inv(Apply(st, step))
  {
  }

  lemma StepKeeps(st: State, step: Step)
    requires Inv(st) && Timely(st, step)
    ensures Inv(Apply(st, step))
  {
    match step
    case RfqStep(id) => if id in st.rfqs { RfqKeeps(st, id); }
    case ReadStep(id) => if id in st.readers { ReadKeeps(st, id); }
    case ManagerStep(srv) => ManagerKeeps(st, srv);
    case _ => ArrivalKeeps(st, step);
  }

  // ----- whole runs

  function Run(st: State, steps: seq<Step>): State
    decreases |steps|
  {
    if steps == [] then st else Run(Apply(st, steps[0]), steps[1..])
  }

  ghost predicate AllTimely(st: State, steps: seq<Step>)
    decreases |steps|
  {
    steps == [] || (Timely(st, steps[0]) && AllTimely(Apply(st, steps[0]), steps[1..]))
  }

  function Initial(servers: set<nat>): State {
    State(servers, 0, EMPTY, EMPTY, map[], map[], Idle, map[], {}, map[])
  }

  /**
   * Epoch safety over every interleaving whose monitor updates start with a sample of the
   * epoch in force, or with one that exceeds none of the cells it is offered to: each cached
   * position was reported in the current epoch, the replica maximum stays at or below the
   * group maximum except between the two stores of a reset, and a replica maximum handed to
   * a reader belongs to the reader's epoch.
   */
  lemma {:induction false} EpochSafety(st: State, steps: seq<Step>)
    requires Inv(st) && AllTimely(st, steps)
    ensures Inv(Run(st, steps))
    decreases |steps|
  {
    if steps != [] {
      StepKeeps(st, steps[0]);
      EpochSafety(Apply(st, steps[0]), steps[1..]);
    }
  }

  lemma InitialIsInv(servers: set<nat>)
    ensures Inv(Initial(servers))
  {
  }

  lemma EpochSafetyFromStart(servers: set<nat>, steps: seq<Step>)
    requires AllTimely(Initial(servers), steps)
    ensures Inv(Run(Initial(servers), steps))
  {
    InitialIsInv(servers);
    EpochSafety(Initial(servers), steps);
  }

  /** Only a physical replica's monitor observation ever raises the replica maximum. */
  lemma OnlyReplicaSamplesRaiseReplica(st: State, step: Step)
    requires Apply(st, step).replica.lsn > st.replica.lsn
    ensures step.ManagerStep? && st.job.MonReplica? && st.job.s.replica
    ensures Apply(st, step).replica == st.job.s.obs
  {
  }

  // ----- the two places where the plain claim fails

  /** A whole monitor update, undisturbed, on server `s.srv`. */
  function MonitorSection(st: State, s: Sample): State {
    st.(cache := st.cache[s.srv := Max(Cached(st.cache, s.srv), s.obs)],
        group := Max(st.group, s.obs),
        replica := if s.replica then Max(st.replica, s.obs) else st.replica)
  }

  /** Under the server's guard, with the cell advanced and the two maxima still to come. */
  function MonitorHalfway(st: State, s: Sample): State {
    st.(guards := st.guards[s.srv := Manager], cache := st.cache[s.srv := Max(Cached(st.cache, s.srv), s.obs)],
        job := MonMirror(s))
  }

  lemma MonitorFirstHalf(st: State, s: Sample)
    requires st.job == Idle && s in st.samples && s.srv in st.servers && Guard(st.guards, s.srv) == Nobody
    ensures Reaches(st, MonitorHalfway(st, s))
  {
    var m := ManagerStep(0);
    var a := st.(job := MonLock(s));
    assert Apply(st, StartMonitor(s)) == a;
    assert Apply(a, m) == a.(guards := st.guards[s.srv := Manager], job := MonAdvance(s));
    ThreeSteps(st, StartMonitor(s), m, m);
  }

  lemma MonitorSecondHalf(st: State, s: Sample)
    requires st.job == MonMirror(s)
    ensures Reaches(st, st.(group := Max(st.group, s.obs),
                            replica := if s.replica then Max(st.replica, s.obs) else st.replica,
                            guards := st.guards[s.srv := Nobody], job := Idle))
  {
    var m := ManagerStep(0);
    var a := st.(group := Max(st.group, s.obs), job := MonReplica(s));
    assert Apply(st, m) == a;
    assert Apply(a, m) == a.(replica := if s.replica then Max(st.replica, s.obs) else st.replica, job := MonUnlock(s));
    ThreeSteps(st, m, m, m);
  }

  /** It is what the small steps of the update add up to. */
  lemma MonitorSectionIsItsSteps(st: State, s: Sample)
    requires st.job == Idle && s in st.samples && s.srv in st.servers && Guard(st.guards, s.srv) == Nobody
    ensures Reaches(st, MonitorSection(st, s).(guards := st.guards[s.srv := Nobody]))
  {
    MonitorFirstHalf(st, s);
    MonitorSecondHalf(MonitorHalfway(st, s), s);
    assert st.guards[s.srv := Manager][s.srv := Nobody] == st.guards[s.srv := Nobody];
    ReachesOn(st, MonitorHalfway(st, s), MonitorSection(st, s).(guards := st.guards[s.srv := Nobody]));
  }

  /**
   * Exactly when a monitor update leaves only current-epoch positions behind: its sample
   * is of the epoch in force, or it does not exceed any of the cells it is offered to.
   * The code checks neither.
   */
  lemma MonitorSectionExact(st: State, s: Sample)
    requires CellsCurrent(st.epoch, st.group, st.replica, st.cache)
    ensures var n := MonitorSection(st, s);
      CellsCurrent(n.epoch, n.group, n.replica, n.cache) <==>
        Harmless(st.epoch, st.group, st.replica, st.cache, s)
  {
    var n := MonitorSection(st, s);
    assert Cached(n.cache, s.srv) == Max(Cached(st.cache, s.srv), s.obs);
    forall x | x != s.srv ensures Cached(n.cache, x) == Cached(st.cache, x) {
    }
    if CellsCurrent(n.epoch, n.group, n.replica, n.cache) {
      assert Current(n.epoch, Cached(n.cache, s.srv));
    } else {
      assert Current(st.epoch, Cached(st.cache, s.srv));
    }
  }

  /** Some run leads from `a` to `b`. */
  ghost predicate Reaches(a: State, b: State) {
    exists steps :: Run(a, steps) == b
  }

  lemma {:induction false} RunConcat(st: State, x: seq<Step>, y: seq<Step>)
    ensures Run(st, x + y) == Run(Run(st, x), y)
    decreases |x|
  {
    if x == [] {
      assert x + y == y;
    } else {
      assert (x + y)[1..] == x[1..] + y;
      RunConcat(Apply(st, x[0]), x[1..], y);
    }
  }

  lemma ReachesOn(a: State, b: State, c: State)
    requires Reaches(a, b) && Reaches(b, c)
    ensures Reaches(a, c)
  {
    var x :| Run(a, x) == b;
    var y :| Run(b, y) == c;
    RunConcat(a, x, y);
  }

  lemma ThreeSteps(st: State, a: Step, b: Step, c: Step)
    ensures Reaches(st, Apply(Apply(Apply(st, a), b), c))
  {
    var steps := [a, b, c];
    assert steps[1..] == [b, c] && [b, c][1..] == [c] && [c][1..] == [];
    calc {
      Run(st, steps);
      Run(Apply(st, a), [b, c]);
      Run(Apply(Apply(st, a), b), [c]);
      Run(Apply(Apply(Apply(st, a), b), c), []);
    }
  }

  lemma ResetLocks(st: State)
    requires st.job == Idle && st.servers == {1} && Guard(st.guards, 1) == Nobody
    ensures Reaches(st, st.(guards := st.guards[1 := Manager], job := ClearGroup))
  {
    var m := ManagerStep(1);
    var a := st.(job := Locking({1}));
    assert Apply(st, StartReset) == a;
    assert {1} - {1} == {};
    assert Apply(a, m) == a.(guards := st.guards[1 := Manager], job := Locking({}));
    ThreeSteps(st, StartReset, m, m);
  }

  lemma ResetClears(st: State)
    requires st.job == ClearGroup && st.servers == {1}
    ensures Reaches(st, st.(group := EMPTY, replica := EMPTY, cache := st.cache[1 := EMPTY], job := Clearing({})))
  {
    var m := ManagerStep(1);
    var a := st.(group := EMPTY, job := ClearReplica);
    assert Apply(st, m) == a;
    assert Apply(a, m) == a.(replica := EMPTY, job := Clearing({1}));
    assert {1} - {1} == {};
    ThreeSteps(st, m, m, m);
  }

  lemma ResetMovesOn(st: State)
    requires st.job == Clearing({}) && st.servers == {1}
    ensures Reaches(st, st.(epoch := st.epoch + 1, guards := st.guards[1 := Nobody], job := Unlocking({})))
  {
    var m := ManagerStep(1);
    var a := st.(job := Bump);
    assert Apply(st, m) == a;
    assert Apply(a, m) == a.(epoch := st.epoch + 1, job := Unlocking({1}));
    assert {1} - {1} == {};
    ThreeSteps(st, m, m, m);
  }

  lemma OneStep(st: State, step: Step)
    ensures Reaches(st, Apply(st, step))
  {
    assert [step][1..] == [];
    assert Run(st, [step]) == Run(Apply(st, step), []);
  }

  lemma ResetEnds(st: State)
    requires st.job == Unlocking({})
    ensures Reaches(st, st.(job := Idle))
  {
    OneStep(st, ManagerStep(1));
  }

  function Reset(st: State): State {
    st.(epoch := st.epoch + 1, group := EMPTY, replica := EMPTY, cache := st.cache[1 := EMPTY],
      guards := st.guards[1 := Nobody])
  }

  /** All stages of a writer change with one server. */
  lemma WholeReset(st: State)
    requires st.job == Idle && st.servers == {1} && Guard(st.guards, 1) == Nobody
    ensures Reaches(st, Reset(st))
  {
    var a := st.(guards := st.guards[1 := Manager], job := ClearGroup);
    var b := a.(group := EMPTY, replica := EMPTY, cache := st.cache[1 := EMPTY], job := Clearing({}));
    var c := b.(epoch := st.epoch + 1, guards := st.guards[1 := Nobody], job := Unlocking({}));
    assert st.guards[1 := Manager][1 := Nobody] == st.guards[1 := Nobody];
    ResetLocks(st);
    ResetClears(a);
    ResetMovesOn(b);
    ResetEnds(c);
    ReachesOn(st, a, b);
    ReachesOn(st, b, c);
    ReachesOn(st, c, Reset(st));
  }

  /**
   * A reachable state: a health check was answered, the writer changed, and that check's
   * position was then stored as if it belonged to the new epoch.
   */
  lemma StaleMonitorSampleSurvives(lsn: nat) returns (n: State)
    requires lsn > 0
    ensures Reaches(Initial({1}), n) && n.epoch == 1 && n.job == Idle
    ensures n.group == n.replica == Cached(n.cache, 1) == Cell(lsn, 0)
  {
    var s := Sample(1, Cell(lsn, 0), true);
    var st := Apply(Initial({1}), NewSample(1, lsn, true));
    OneStep(Initial({1}), NewSample(1, lsn, true));
    WholeReset(st);
    MonitorSectionIsItsSteps(Reset(st), s);
    n := MonitorSection(Reset(st), s).(guards := Reset(st).guards[1 := Nobody]);
    ReachesOn(Initial({1}), st, Reset(st));
    ReachesOn(Initial({1}), Reset(st), n);
  }

  /** A reset clears the group maximum before the replica maximum, and another thread can look in between. */
  lemma ResetWindowInvertsOrder(st: State)
    requires Inv(st) && st.job == ClearGroup && st.replica.lsn > 0
    ensures var n := Apply(st, ManagerStep(0)); Inv(n) && n.replica.lsn > n.group.lsn
    ensures var m := Apply(Apply(st, ManagerStep(0)), ManagerStep(0)); Inv(m) && m.replica.lsn <= m.group.lsn
  {
    ManagerKeeps(st, 0);
    ManagerKeeps(StepManager(st, 0), 0);
  }

  lemma PublishedIsReached(lsn: nat) returns (n: State)
    requires lsn > 0
    ensures Reaches(Initial({1}), n) && n.replica.lsn == lsn
    ensures n.job == Idle && n.servers == {1} && Guard(n.guards, 1) == Nobody
  {
    var s := Sample(1, Cell(lsn, 0), true);
    var st := Apply(Initial({1}), NewSample(1, lsn, true));
    OneStep(Initial({1}), NewSample(1, lsn, true));
    MonitorSectionIsItsSteps(st, s);
    n := MonitorSection(st, s).(guards := st.guards[1 := Nobody]);
    ReachesOn(Initial({1}), st, n);
  }

  /** Such a reset does happen: after one published health check, with any position. */
  lemma ResetWindowIsReached(lsn: nat) returns (n: State)
    requires lsn > 0
    ensures Reaches(Initial({1}), n) && n.replica.lsn == lsn > n.group.lsn
  {
    var st := PublishedIsReached(lsn);
    ResetLocks(st);
    var locked := st.(guards := st.guards[1 := Manager], job := ClearGroup);
    OneStep(locked, ManagerStep(0));
    n := Apply(locked, ManagerStep(0));
    ReachesOn(Initial({1}), st, locked);
    ReachesOn(Initial({1}), locked, n);
  }
}
