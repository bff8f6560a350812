/**
 * Session consistency across servers, sessions and writer changes. The cache update,
 * the writer change and the RFQ acceptance are single steps here; their interleavings
 * are the subject of WriterEpoch.
 */
module ReadYourWrites {

  /** `PolarDB_SessionConsistency`: own writes, everything observed, and the epoch both belong to. */
  datatype Session = Session(write: nat, observed: nat, scope: nat)

  function Target(s: Session): nat {
    if s.write > s.observed then s.write else s.observed
  }

  /** `polardb_rebind_session_lsn_scope`: positions of another epoch are dropped. */
  function Rebind(s: Session, epoch: nat): Session {
    if s.scope == epoch then s else Session(0, 0, epoch)
  }

  /** A health check answer on its way to the cache. */
  datatype Sample = Sample(srv: nat, lsn: nat, taken: nat)

  /** A routed read that has not executed: its server, and whether it skips the wait. */
  datatype Plan = Plan(srv: nat, scope: nat, target: nat, bypass: bool)

  /** A write or read of a session that completed in epoch `scope` at position `pos`. */
  datatype Event = Event(session: nat, scope: nat, pos: nat)

  /**
   * `primary` and `replay` are the true WAL positions on the current timeline; the
   * proxy only sees `cache`.
   */
  datatype State = State(
    epoch: nat, primary: nat, replay: map<nat, nat>, cache: map<nat, nat>, samples: set<Sample>,
    sessions: map<nat, Session>, plans: map<nat, Plan>, log: seq<Event>)

  datatype Step =
    | Commit(session: nat, pos: nat)                            // a write on the primary, its RFQ accepted
    | Replay(srv: nat, pos: nat)                                // a replica applies WAL
    | Check(srv: nat)                                           // a health check is answered
    | Publish(s: Sample)                                        // polardb_update_server_lsn_from_monitor
    | Route(session: nat, srv: nat)                             // choose a reader and decide about the wait
    | Execute(session: nat)                                     // the backend runs the read, its RFQ comes back
    | Failover(primary: nat, replay: map<nat, nat>)             // the writer set changed

  function Cached(cache: map<nat, nat>, srv: nat): nat {
    if srv in cache then cache[srv] else 0
  }

  function SessionOf(st: State, id: nat): Session {
    if id in st.sessions then st.sessions[id] else Session(0, 0, st.epoch)
  }

  function Larger(a: nat, b: nat): nat {
    if a > b then a else b
  }

  /** A read may skip its wait when the cached position already reached a non-zero target. */
  function MakePlan(st: State, session: nat, srv: nat): Plan {
    var t := Target(Rebind(SessionOf(st, session), st.epoch));
    Plan(srv, st.epoch, t, t > 0 && Cached(st.cache, srv) >= t)
  }

  /** Without the bypass a strict wait holds the read back until replay reached the target. */
  predicate CanExecute(st: State, p: Plan) {
    p.srv in st.replay && (p.bypass || st.replay[p.srv] >= p.target)
  }

  /** An accepted RFQ raises what the session observed; a rejected one changes nothing. */
  function Executed(st: State, id: nat, p: Plan): State
    requires p.srv in st.replay
  {
    var done := st.(plans := st.plans - {id});
    if p.scope != st.epoch then done
    else
      var pos := st.replay[p.srv];
      var s := Rebind(SessionOf(st, id), st.epoch);
      done.(sessions := st.sessions[id := s.(observed := Larger(s.observed, pos))],
            cache := st.cache[p.srv := Larger(Cached(st.cache, p.srv), pos)],
            log := st.log + [Event(id, st.epoch, pos)])
  }

  function Committed(st: State, id: nat, pos: nat): State {
    var s := Rebind(SessionOf(st, id), st.epoch);
    st.(primary := pos,
        sessions := st.sessions[id := Session(Larger(s.write, pos), Larger(s.observed, pos), st.epoch)],
        log := st.log + [Event(id, st.epoch, pos)])
  }

  function Apply(st: State, step: Step): State {
    match step
    case Commit(id, pos) => if pos > st.primary && id !in st.plans then Committed(st, id, pos) else st
    case Replay(srv, pos) =>
      if srv in st.replay && st.replay[srv] <= pos <= st.primary then st.(replay := st.replay[srv := pos]) else st
    case Check(srv) =>
      if srv in st.replay then st.(samples := st.samples + {Sample(srv, st.replay[srv], st.epoch)}) else st
    case Publish(s) =>
      if s in st.samples then st.(cache := st.cache[s.srv := Larger(Cached(st.cache, s.srv), s.lsn)]) else st
    case Route(id, srv) =>
      if id in st.plans then st
      else st.(plans := st.plans[id := MakePlan(st, id, srv)],
               sessions := st.sessions[id := Rebind(SessionOf(st, id), st.epoch)])
    case Execute(id) =>
      if id in st.plans && CanExecute(st, st.plans[id]) then Executed(st, id, st.plans[id]) else st
    case Failover(primary, replay) =>
      if forall srv :: srv in replay ==> replay[srv] <= primary
      then FailedOver(st, primary, replay) else st
  }

  // ----- the invariant

  /** No cached position is ahead of what its server has replayed. */
  ghost predicate CacheOk(cache: map<nat, nat>, replay: map<nat, nat>) {
    forall srv :: Cached(cache, srv) > 0 ==> srv in replay && Cached(cache, srv) <= replay[srv]
  }

  ghost predicate SamplesOk(samples: set<Sample>, epoch: nat, replay: map<nat, nat>) {
    forall s :: s in samples ==> s.taken <= epoch && (s.taken == epoch ==> s.srv in replay && s.lsn <= replay[s.srv])
  }

  /** A bypassing read planned in this epoch already has its target replayed. */
  ghost predicate PlanOk(p: Plan, id: nat, sessions: map<nat, Session>, epoch: nat, replay: map<nat, nat>) {
    && p.scope <= epoch
    && (p.scope == epoch ==>
         && (p.bypass ==> p.srv in replay && p.target <= replay[p.srv])
         && id in sessions && sessions[id].scope == epoch && Target(sessions[id]) <= p.target)
  }

  ghost predicate PlansOk(plans: map<nat, Plan>, sessions: map<nat, Session>, epoch: nat, replay: map<nat, nat>) {
    forall id :: id in plans ==> PlanOk(plans[id], id, sessions, epoch, replay)
  }

  /** In the current epoch no session knows a position beyond the primary's. */
  ghost predicate SessionsOk(sessions: map<nat, Session>, epoch: nat, primary: nat) {
    forall id :: id in sessions ==>
      sessions[id].scope <= epoch && (sessions[id].scope == epoch ==> Target(sessions[id]) <= primary)
  }

  /** The session's target covers everything it did or saw in its epoch. */
  ghost predicate LogOk(log: seq<Event>, sessions: map<nat, Session>, epoch: nat) {
    forall i :: 0 <= i < |log| ==>
      var e := log[i];
      && e.session in sessions && e.scope <= sessions[e.session].scope <= epoch
      && (e.scope == sessions[e.session].scope ==> e.pos <= Target(sessions[e.session]))
  }

  ghost predicate ReplayOk(replay: map<nat, nat>, primary: nat) {
    forall srv :: srv in replay ==> replay[srv] <= primary
  }

  /** Within one epoch a session never goes back: reads see its writes and all it has read. */
  ghost predicate Monotonic(log: seq<Event>) {
    forall i, j :: 0 <= i < j < |log| && log[i].session == log[j].session && log[i].scope == log[j].scope ==>
      log[i].pos <= log[j].pos
  }

  ghost predicate Inv(st: State) {
    && CacheOk(st.cache, st.replay) && SamplesOk(st.samples, st.epoch, st.replay)
    && PlansOk(st.plans, st.sessions, st.epoch, st.replay) && SessionsOk(st.sessions, st.epoch, st.primary)
    && LogOk(st.log, st.sessions, st.epoch) && Monotonic(st.log) && ReplayOk(st.replay, st.primary)
  }

  /** What the proxy knows of a sample says that it is safe: it is of this epoch, or no news. */
  predicate Safe(taken: nat, epoch: nat, lsn: nat, cached: nat) {
    taken == epoch || lsn <= cached
  }

  predicate Timely(st: State, step: Step) {
    step.Publish? && step.s in st.samples ==> Safe(step.s.taken, st.epoch, step.s.lsn, Cached(st.cache, step.s.srv))
  }

  // ----- each step keeps it

  /** Appending an event at or beyond the session's target keeps every session monotonic. */
  lemma LogGrows(log: seq<Event>, sessions: map<nat, Session>, epoch: nat, id: nat, pos: nat, s: Session)
    requires Monotonic(log) && LogOk(log, sessions, epoch) && s.scope == epoch && Target(s) >= pos
    requires id in sessions && sessions[id].scope == epoch ==> Target(sessions[id]) <= pos
    ensures Monotonic(log + [Event(id, epoch, pos)]) && LogOk(log + [Event(id, epoch, pos)], sessions[id := s], epoch)
  {
    forall i | 0 <= i < |log| && log[i].session == id && log[i].scope == epoch ensures log[i].pos <= pos {
      assert log[i].scope <= sessions[id].scope;
    }
  }

  /** Plans of other sessions do not look at this one. */
  lemma OthersPlansKept(plans: map<nat, Plan>, sessions: map<nat, Session>, epoch: nat, replay: map<nat, nat>,
                        id: nat, s: Session)
    requires PlansOk(plans, sessions, epoch, replay) && id !in plans
    ensures PlansOk(plans, sessions[id := s], epoch, replay)
  {
    forall x | x in plans ensures PlanOk(plans[x], x, sessions[id := s], epoch, replay) {
      assert PlanOk(plans[x], x, sessions, epoch, replay);
    }
  }

  lemma CommitKeeps(st: State, id: nat, pos: nat)
    requires Inv(st) && pos > st.primary && id !in st.plans
    ensures Inv(Committed(st, id, pos))
  {
    var s := Committed(st, id, pos).sessions[id];
    assert Target(s) == pos && s.scope == st.epoch;
    OthersPlansKept(st.plans, st.sessions, st.epoch, st.replay, id, s);
    LogGrows(st.log, st.sessions, st.epoch, id, pos, s);
  }

  /** A session read that counts executes at or beyond everything the session knows. */
  lemma ExecuteReachesTarget(st: State, id: nat)
    requires Inv(st) && id in st.plans && CanExecute(st, st.plans[id]) && st.plans[id].scope == st.epoch
    ensures id in st.sessions && st.sessions[id].scope == st.epoch
    ensures st.replay[st.plans[id].srv] >= st.plans[id].target >= Target(st.sessions[id])
  {
    assert PlanOk(st.plans[id], id, st.sessions, st.epoch, st.replay);
  }

  /** The server's own position, learned from its answer, is never too much. */
  lemma LearnedCache(cache: map<nat, nat>, replay: map<nat, nat>, srv: nat, pos: nat)
    requires CacheOk(cache, replay) && (pos > Cached(cache, srv) ==> srv in replay && pos <= replay[srv])
    ensures CacheOk(cache[srv := Larger(Cached(cache, srv), pos)], replay)
  {
    var n := cache[srv := Larger(Cached(cache, srv), pos)];
    forall x ensures Cached(n, x) > 0 ==> x in replay && Cached(n, x) <= replay[x] {
      assert Cached(cache, x) > 0 ==> x in replay;
    }
  }

  lemma ExecuteKeeps(st: State, id: nat)
    requires Inv(st) && id in st.plans && CanExecute(st, st.plans[id])
    ensures Inv(Executed(st, id, st.plans[id]))
  {
    var p := st.plans[id];
    var rest := st.plans - {id};
    assert PlansOk(rest, st.sessions, st.epoch, st.replay);
    if p.scope == st.epoch {
      var n := Executed(st, id, p);
      ExecuteReachesTarget(st, id);
      LearnedCache(st.cache, st.replay, p.srv, st.replay[p.srv]);
      OthersPlansKept(rest, st.sessions, st.epoch, st.replay, id, n.sessions[id]);
      LogGrows(st.log, st.sessions, st.epoch, id, st.replay[p.srv], n.sessions[id]);
    }
  }

  /** Rebinding a session to the current epoch forgets nothing of this epoch. */
  lemma ReboundLog(log: seq<Event>, sessions: map<nat, Session>, epoch: nat, id: nat, s: Session)
    requires LogOk(log, sessions, epoch)
    requires id in sessions && sessions[id].scope == epoch ==> s == sessions[id]
    requires id in sessions ==> sessions[id].scope <= epoch
    requires s.scope == epoch
    ensures LogOk(log, sessions[id := s], epoch)
  {
  }

  lemma RouteKeeps(st: State, id: nat, srv: nat)
    requires Inv(st) && id !in st.plans
    ensures Inv(Apply(st, Route(id, srv)))
  {
    var s, p := Rebind(SessionOf(st, id), st.epoch), MakePlan(st, id, srv);
    OthersPlansKept(st.plans, st.sessions, st.epoch, st.replay, id, s);
    assert PlanOk(p, id, st.sessions[id := s], st.epoch, st.replay);
    assert PlansOk(st.plans[id := p], st.sessions[id := s], st.epoch, st.replay);
    ReboundLog(st.log, st.sessions, st.epoch, id, s);
  }

  lemma PublishKeeps(st: State, s: Sample)
    requires Inv(st) && s in st.samples && Safe(s.taken, st.epoch, s.lsn, Cached(st.cache, s.srv))
    ensures Inv(Apply(st, Publish(s)))
  {
    LearnedCache(st.cache, st.replay, s.srv, s.lsn);
  }

  /** Replay only moves forward, so what was replayed stays replayed. */
  lemma ReplayKeeps(st: State, srv: nat, pos: nat)
    requires Inv(st) && srv in st.replay && st.replay[srv] <= pos <= st.primary
    ensures Inv(st.(replay := st.replay[srv := pos]))
  {
    var replay := st.replay[srv := pos];
    forall id | id in st.plans ensures PlanOk(st.plans[id], id, st.sessions, st.epoch, replay) {
      assert PlanOk(st.plans[id], id, st.sessions, st.epoch, st.replay);
    }
  }

  lemma CheckKeeps(st: State, srv: nat)
    requires Inv(st) && srv in st.replay
    ensures Inv(Apply(st, Check(srv)))
  {
  }

  function FailedOver(st: State, primary: nat, replay: map<nat, nat>): State {
    st.(epoch := st.epoch + 1, primary := primary, replay := replay, cache := map[])
  }

  lemma AgedPlans(plans: map<nat, Plan>, sessions: map<nat, Session>, epoch: nat, replay: map<nat, nat>,
                  later: map<nat, nat>)
    requires PlansOk(plans, sessions, epoch, replay)
    ensures PlansOk(plans, sessions, epoch + 1, later)
  {
    forall id | id in plans ensures PlanOk(plans[id], id, sessions, epoch + 1, later) {
      assert PlanOk(plans[id], id, sessions, epoch, replay);
    }
  }

  /** A writer change keeps nothing that could be compared across timelines. */
  lemma FailoverKeeps(st: State, primary: nat, replay: map<nat, nat>)
    requires Inv(st) && ReplayOk(replay, primary)
    ensures Inv(FailedOver(st, primary, replay))
  {
    AgedPlans(st.plans, st.sessions, st.epoch, st.replay, replay);
  }

  lemma StepKeeps(st: State, step: Step)
    requires Inv(st) && Timely(st, step)
    ensures Inv(Apply(st, step))
  {
    match step
    case Commit(id, pos) => if pos > st.primary && id !in st.plans { CommitKeeps(st, id, pos); }
    case Replay(srv, pos) => if srv in st.replay && st.replay[srv] <= pos <= st.primary { ReplayKeeps(st, srv, pos); }
    case Check(srv) => if srv in st.replay { CheckKeeps(st, srv); }
    case Publish(s) => if s in st.samples { PublishKeeps(st, s); }
    case Route(id, srv) => if id !in st.plans { RouteKeeps(st, id, srv); }
    case Execute(id) => if id in st.plans && CanExecute(st, st.plans[id]) { ExecuteKeeps(st, id); }
    case Failover(primary, replay) =>
      if forall srv :: srv in replay ==> replay[srv] <= primary { FailoverKeeps(st, primary, replay); }
  }

  // ----- whole runs

  function Run(st: State, steps: seq<Step>): State
    decreases |steps|
  {
    if steps == [] then st else Run(Apply(st, steps[0]), steps[1..])
  }

  ghost predicate AllTimely(st: State, steps: seq<Step>)
    decreases |steps|
  {
    steps == [] || (Timely(st, steps[0]) && AllTimely(Apply(st, steps[0]), steps[1..]))
  }

  function Initial(replicas: set<nat>): State {
    State(0, 0, map r | r in replicas :: 0, map[], {}, map[], map[], [])
  }

  /**
   * Read-your-writes and monotonic reads over every run that publishes a health-check
   * position only in the epoch it was taken in, or when it is no news: whatever the routing,
   * replay and failover order, a session's completed writes and reads within one writer
   * epoch never go back, whether a read waited or skipped its wait.
   */
  lemma {:induction false} SessionsNeverGoBack(st: State, steps: seq<Step>)
    requires Inv(st) && AllTimely(st, steps)
    ensures Inv(Run(st, steps)) && Monotonic(Run(st, steps).log)
    decreases |steps|
  {
    if steps != [] {
      StepKeeps(st, steps[0]);
      SessionsNeverGoBack(Apply(st, steps[0]), steps[1..]);
    }
  }

  lemma InitialIsInv(replicas: set<nat>)
    ensures Inv(Initial(replicas))
  {
  }

  lemma NeverGoBackFromStart(replicas: set<nat>, steps: seq<Step>)
    requires AllTimely(Initial(replicas), steps)
    ensures Monotonic(Run(Initial(replicas), steps).log)
  {
    InitialIsInv(replicas);
    SessionsNeverGoBack(Initial(replicas), steps);
  }

  /**
   * The condition is needed. A health check answered at position 100 before a failover
   * is published after it, so the cache is ahead of the server on the new timeline.
   */
  lemma StaleSampleOverstates()
    ensures var st := State(0, 100, map[1 := 100], map[], {}, map[], map[], []);
      && Inv(st)
      && Run(st, [Check(1), Failover(40, map[1 := 30]), Publish(Sample(1, 100, 0))])
         == State(1, 40, map[1 := 30], map[1 := 100], {Sample(1, 100, 0)}, map[], map[], [])
  {
    var st := State(0, 100, map[1 := 100], map[], {}, map[], map[], []);
    var s := Sample(1, 100, 0);
    RunThree(st, Check(1), Failover(40, map[1 := 30]), Publish(s));
    var checked := Apply(st, Check(1));
    assert checked == st.(samples := {s});
    var moved := Apply(checked, Failover(40, map[1 := 30]));
    assert moved == State(1, 40, map[1 := 30], map[], {s}, map[], map[], []);
  }

  /**
   * Every stale sample from beyond the new primary's position does harm: once it is
   * published, a session that commits up to that position and reads from that server
   * skips its wait and goes back.
   */
  lemma StaleSampleBreaksReadYourWrites(st: State, s: Sample, id: nat)
    requires Inv(st) && s in st.samples && s.srv in st.replay && s.lsn > st.primary && id !in st.plans
    ensures var a := Apply(st, Publish(s));
      var b := Run(a, [Commit(id, s.lsn), Route(id, s.srv), Execute(id)]);
      && b.log == st.log + [Event(id, st.epoch, s.lsn), Event(id, st.epoch, st.replay[s.srv])]
      && !Monotonic(b.log)
  {
    var a := Apply(st, Publish(s));
    RunThree(a, Commit(id, s.lsn), Route(id, s.srv), Execute(id));
    var wrote := Apply(a, Commit(id, s.lsn));
    assert wrote.sessions[id] == Session(s.lsn, s.lsn, st.epoch);
    assert Cached(wrote.cache, s.srv) >= s.lsn;
    var routed := Apply(wrote, Route(id, s.srv));
    assert routed.plans[id] == Plan(s.srv, st.epoch, s.lsn, true);
    var read := Apply(routed, Execute(id));
    assert read.log == wrote.log + [Event(id, st.epoch, st.replay[s.srv])];
    var k := |st.log|;
    assert read.log[k] == Event(id, st.epoch, s.lsn) && read.log[k + 1].pos < s.lsn;
  }

  /** Any sample can be the one that does it: a writer change is all that has to come in between. */
  lemma EverySampleCanBreak(st: State, s: Sample, id: nat)
    requires Inv(st) && s in st.samples && s.lsn > 0 && id !in st.plans
    ensures var moved := Apply(st, Failover(0, map[s.srv := 0]));
      !Monotonic(Run(Apply(moved, Publish(s)), [Commit(id, s.lsn), Route(id, s.srv), Execute(id)]).log)
  {
    FailoverKeeps(st, 0, map[s.srv := 0]);
    assert Apply(st, Failover(0, map[s.srv := 0])) == FailedOver(st, 0, map[s.srv := 0]);
    StaleSampleBreaksReadYourWrites(FailedOver(st, 0, map[s.srv := 0]), s, id);
  }

  /**
   * What the session suffers: after the publication, its next read from that server runs
   * below its target exactly when the server is behind the target and the published
   * position, or one cached before, says that it is not.
   */
  lemma NextReadExact(st: State, s: Sample, id: nat)
    requires Inv(st) && s in st.samples && s.srv in st.replay && id in st.sessions && st.sessions[id].scope == st.epoch
    ensures var n := Apply(st, Publish(s));
      var p := MakePlan(n, id, s.srv);
      var target := Target(st.sessions[id]);
      && p.target == target
      && (CanExecute(n, p) && n.replay[s.srv] < target <==>
           st.replay[s.srv] < target <= Larger(Cached(st.cache, s.srv), s.lsn))
  {
    assert Cached(Apply(st, Publish(s)).cache, s.srv) == Larger(Cached(st.cache, s.srv), s.lsn);
  }

  // ----- what the steps achieve

  /** A read is held back exactly while it may not skip its wait and the server is behind its target. */
  lemma ExecuteExact(st: State, id: nat)
    requires id in st.plans && st.plans[id].srv in st.replay
    ensures var p, n := st.plans[id], Apply(st, Execute(id));
      var pos := st.replay[p.srv];
      && (!p.bypass && pos < p.target ==> n == st)
      && ((p.bypass || pos >= p.target) && p.scope != st.epoch ==> n == st.(plans := st.plans - {id}))
      && ((p.bypass || pos >= p.target) && p.scope == st.epoch ==>
           && n.plans == st.plans - {id} && n.log == st.log + [Event(id, st.epoch, pos)]
           && id in n.sessions && n.sessions[id].scope == st.epoch && n.sessions[id].observed >= pos
           && Cached(n.cache, p.srv) >= pos && n.replay == st.replay && n.primary == st.primary)
  {
  }

  /** A read skips its wait exactly when it has a target and the cached position has reached it. */
  lemma RouteExact(st: State, id: nat, srv: nat)
    requires id !in st.plans
    ensures var n := Apply(st, Route(id, srv));
      && id in n.plans && n.plans[id].srv == srv && n.plans[id].scope == st.epoch
      && n.plans[id].target ==
         (if id in st.sessions && st.sessions[id].scope == st.epoch then Target(st.sessions[id]) else 0)
      && (n.plans[id].bypass <==> n.plans[id].target > 0 && Cached(st.cache, srv) >= n.plans[id].target)
      && n.log == st.log && n.replay == st.replay && n.cache == st.cache
  {
  }

  /** Whatever the cache says, a read completes once its server has replayed to the session's target. */
  lemma WaitingReadCompletes(st: State, id: nat, srv: nat, pos: nat)
    requires Inv(st) && id !in st.plans && srv in st.replay && st.replay[srv] <= pos <= st.primary
    requires id in st.sessions && st.sessions[id].scope == st.epoch ==> Target(st.sessions[id]) <= pos
    ensures Run(st, [Route(id, srv), Replay(srv, pos), Execute(id)]).log == st.log + [Event(id, st.epoch, pos)]
  {
    RunThree(st, Route(id, srv), Replay(srv, pos), Execute(id));
    RouteExact(st, id, srv);
    ExecuteExact(Apply(Apply(st, Route(id, srv)), Replay(srv, pos)), id);
  }

  /** A commit beyond the primary's position becomes the session's target. */
  lemma CommitExact(st: State, id: nat, pos: nat)
    requires Inv(st) && id !in st.plans && pos > st.primary
    ensures var n := Apply(st, Commit(id, pos));
      && n.primary == pos && n.log == st.log + [Event(id, st.epoch, pos)]
      && id in n.sessions && n.sessions[id].scope == st.epoch && Target(n.sessions[id]) == n.sessions[id].write == pos
  {
  }

  // ----- the exact rule

  /** A rule for publishing, in terms of all the proxy knows: the sample's epoch, its own, both positions. */
  type Rule = (nat, nat, nat, nat) -> bool

  predicate Obeys(rule: Rule, st: State, step: Step) {
    step.Publish? && step.s in st.samples ==> rule(step.s.taken, st.epoch, step.s.lsn, Cached(st.cache, step.s.srv))
  }

  ghost predicate AllObey(rule: Rule, st: State, steps: seq<Step>)
    decreases |steps|
  {
    steps == [] || (Obeys(rule, st, steps[0]) && AllObey(rule, Apply(st, steps[0]), steps[1..]))
  }

  /** Under the rule no session ever goes back, in any run from the start with any replicas. */
  ghost predicate Sound(rule: Rule) {
    forall replicas: set<nat>, steps: seq<Step> ::
      AllObey(rule, Initial(replicas), steps) ==> Monotonic(Run(Initial(replicas), steps).log)
  }

  ghost predicate OnlySafe(rule: Rule) {
    forall taken: nat, epoch: nat, lsn: nat, cached: nat ::
      taken <= epoch && rule(taken, epoch, lsn, cached) ==> Safe(taken, epoch, lsn, cached)
  }

  lemma {:induction false} ObeyingIsTimely(rule: Rule, st: State, steps: seq<Step>)
    requires OnlySafe(rule) && Inv(st) && AllObey(rule, st, steps)
    ensures AllTimely(st, steps)
    decreases |steps|
  {
    if steps != [] {
      assert Timely(st, steps[0]);
      StepKeeps(st, steps[0]);
      ObeyingIsTimely(rule, Apply(st, steps[0]), steps[1..]);
    }
  }

  lemma {:induction false} NoPublishObeys(rule: Rule, st: State, steps: seq<Step>)
    requires forall i :: 0 <= i < |steps| ==> !steps[i].Publish?
    ensures AllObey(rule, st, steps)
    decreases |steps|
  {
    if steps != [] {
      NoPublishObeys(rule, Apply(st, steps[0]), steps[1..]);
    }
  }

  lemma {:induction false} RunConcat(rule: Rule, st: State, a: seq<Step>, b: seq<Step>)
    ensures Run(st, a + b) == Run(Run(st, a), b)
    ensures AllObey(rule, st, a + b) <==> AllObey(rule, st, a) && AllObey(rule, Run(st, a), b)
    decreases |a|
  {
    if a == [] {
      assert a + b == b;
    } else {
      assert (a + b)[1..] == a[1..] + b && (a + b)[0] == a[0];
      RunConcat(rule, Apply(st, a[0]), a[1..], b);
    }
  }

  /** `n` writer changes after which the only replica starts again. */
  function Failovers(n: nat): seq<Step> {
    seq(n, _ => Failover(0, map[1 := 0]))
  }

  lemma {:induction false} FailoversRun(st: State, n: nat)
    ensures Run(st, Failovers(n)) ==
      if n == 0 then st else st.(epoch := st.epoch + n, primary := 0, replay := map[1 := 0], cache := map[])
    decreases n
  {
    if n > 0 {
      var next := Apply(st, Failover(0, map[1 := 0]));
      assert next == FailedOver(st, 0, map[1 := 0]);
      assert Failovers(n)[1..] == Failovers(n - 1);
      FailoversRun(next, n - 1);
    }
  }

  /** One replica, at the cached position, and a sample of an older epoch from beyond it. */
  ghost predicate Stale(st: State, taken: nat, epoch: nat, lsn: nat, cached: nat) {
    && st.epoch == epoch && st.primary == cached && st.replay == map[1 := cached]
    && Cached(st.cache, 1) == cached && st.samples == {Sample(1, lsn, taken)} && st.plans == map[]
  }

  /** The replica is checked at `lsn` in epoch `taken`. */
  function CheckedAt(taken: nat, lsn: nat): seq<Step> {
    Failovers(taken) + [Commit(9, lsn), Replay(1, lsn), Check(1)]
  }

  lemma CheckedReached(rule: Rule, taken: nat, lsn: nat)
    requires lsn > 0
    ensures var st := Run(Initial({1}), CheckedAt(taken, lsn));
      st.epoch == taken && st.samples == {Sample(1, lsn, taken)} && st.plans == map[] && 8 !in st.sessions
  {
    var start := Initial({1});
    assert start.replay == map[1 := 0];
    FailoversRun(start, taken);
    var a := Run(start, Failovers(taken));
    RunConcat(rule, start, Failovers(taken), [Commit(9, lsn), Replay(1, lsn), Check(1)]);
    RunThree(a, Commit(9, lsn), Replay(1, lsn), Check(1));
  }

  /** Writer changes up to `epoch`, and a read without a target that caches the replica's position. */
  function CachedAt(n: nat, cached: nat): seq<Step> {
    Failovers(n) + [Failover(cached, map[1 := cached]), Route(8, 1), Execute(8)]
  }

  /** A new session's first read caches the position of the replica it runs on. */
  lemma FirstReadCaches(st: State, cached: nat)
    requires st.plans == map[] && 8 !in st.sessions && st.replay == map[1 := cached] && st.cache == map[]
    ensures var e := Apply(Apply(st, Route(8, 1)), Execute(8));
      && e.epoch == st.epoch && e.primary == st.primary && e.replay == st.replay
      && Cached(e.cache, 1) == cached && e.samples == st.samples && e.plans == map[]
  {
    var routed := Apply(st, Route(8, 1));
    assert routed.plans == map[8 := Plan(1, st.epoch, 0, false)];
    assert routed.plans - {8} == map[];
  }

  lemma CachedReached(rule: Rule, st: State, n: nat, cached: nat)
    requires st.plans == map[] && 8 !in st.sessions
    ensures var e := Run(st, CachedAt(n, cached));
      && e.epoch == st.epoch + n + 1 && e.primary == cached && e.replay == map[1 := cached]
      && Cached(e.cache, 1) == cached && e.samples == st.samples && e.plans == map[]
  {
    FailoversRun(st, n);
    var a := Run(st, Failovers(n));
    RunConcat(rule, st, Failovers(n), [Failover(cached, map[1 := cached]), Route(8, 1), Execute(8)]);
    RunThree(a, Failover(cached, map[1 := cached]), Route(8, 1), Execute(8));
    var moved := Apply(a, Failover(cached, map[1 := cached]));
    assert moved == FailedOver(a, cached, map[1 := cached]);
    FirstReadCaches(moved, cached);
  }

  /** A run from the start, without a publication, to any such state. */
  function Witness(taken: nat, epoch: nat, lsn: nat, cached: nat): seq<Step>
    requires taken < epoch
  {
    CheckedAt(taken, lsn) + CachedAt(epoch - taken - 1, cached)
  }

  lemma WitnessReaches(rule: Rule, taken: nat, epoch: nat, lsn: nat, cached: nat)
    requires taken < epoch && lsn > 0
    ensures var steps := Witness(taken, epoch, lsn, cached);
      var st := Run(Initial({1}), steps);
      AllObey(rule, Initial({1}), steps) && Inv(st) && Stale(st, taken, epoch, lsn, cached)
  {
    var never: Rule := (t: nat, e: nat, l: nat, c: nat) => false;
    var start, steps := Initial({1}), Witness(taken, epoch, lsn, cached);
    CheckedReached(rule, taken, lsn);
    CachedReached(rule, Run(start, CheckedAt(taken, lsn)), epoch - taken - 1, cached);
    RunConcat(rule, start, CheckedAt(taken, lsn), CachedAt(epoch - taken - 1, cached));
    NoPublishObeys(rule, start, steps);
    NoPublishObeys(never, start, steps);
    InitialIsInv({1});
    ObeyingIsTimely(never, start, steps);
    SessionsNeverGoBack(start, steps);
  }

  lemma UnsafeRuleBreaks(rule: Rule, taken: nat, epoch: nat, lsn: nat, cached: nat)
    requires taken < epoch && rule(taken, epoch, lsn, cached) && lsn > cached
    ensures !Sound(rule)
  {
    var steps := Witness(taken, epoch, lsn, cached);
    var st, s := Run(Initial({1}), steps), Sample(1, lsn, taken);
    WitnessReaches(rule, taken, epoch, lsn, cached);
    var rest := [Commit(7, lsn), Route(7, 1), Execute(7)];
    var more := [Publish(s)] + rest;
    assert more[1..] == rest;
    StaleSampleBreaksReadYourWrites(st, s, 7);
    NoPublishObeys(rule, Apply(st, Publish(s)), rest);
    assert AllObey(rule, st, more);
    assert Run(st, more) == Run(Apply(st, Publish(s)), rest);
    RunConcat(rule, Initial({1}), steps, more);
  }

  /**
   * Among all rules the proxy could follow, those under which no session ever goes back
   * are exactly those that publish a sample only in its own epoch or when it is no news.
   * The code publishes always.
   */
  lemma SoundRulesExactly(rule: Rule)
    ensures Sound(rule) <==> OnlySafe(rule)
  {
    if OnlySafe(rule) {
      forall replicas: set<nat>, steps: seq<Step> | AllObey(rule, Initial(replicas), steps)
        ensures Monotonic(Run(Initial(replicas), steps).log)
      {
        InitialIsInv(replicas);
        ObeyingIsTimely(rule, Initial(replicas), steps);
        SessionsNeverGoBack(Initial(replicas), steps);
      }
    } else {
      var taken: nat, epoch: nat, lsn: nat, cached: nat :|
        taken <= epoch && rule(taken, epoch, lsn, cached) && !Safe(taken, epoch, lsn, cached);
      UnsafeRuleBreaks(rule, taken, epoch, lsn, cached);
    }
  }

  lemma RunThree(st: State, a: Step, b: Step, c: Step)
    ensures Run(st, [a, b, c]) == Apply(Apply(Apply(st, a), b), c)
  {
    assert [a, b, c][1..] == [b, c] && [b, c][1..] == [c] && [c][1..] == [];
    calc {
      Run(st, [a, b, c]);
      Run(Apply(st, a), [b, c]);
      Run(Apply(Apply(st, a), b), [c]);
      Run(Apply(Apply(Apply(st, a), b), c), []);
    }
  }
}
