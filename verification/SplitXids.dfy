/**
 * Split-XID hygiene of one pooled backend: a read split out of an open transaction
 * leaves transaction ids on the backend, and no ordinary query of a later session may
 * run while they are there.
 */
module SplitXids {
  import opened WrappedQuery

  /** How the backend answers one batch: every statement succeeds, or statement `at` fails. */
  datatype Outcome = Completes(user: seq<Result>) | FailsAt(at: nat, timeout: bool)

  /** The XIDs in force when a user statement ran. */
  datatype Seen = Seen(ordinary: bool, xids: seq<nat>)

  datatype Backend = Backend(conn: Conn, xids: seq<nat>, log: seq<Seen>)

  /**
   * `after` is what an aborted batch leaves on the backend: rolled back, kept or cleared.
   * A simple query comes with the wait wrapper its session asked for (`stmts` may be 0).
   * A split read whose wrapper failed is finished on the completion path, which marks the
   * reader not reusable, or (`handled`) by the failure handler, which leaves the mark alone.
   */
  datatype Step =
    | Simple(stmts: nat, outcome: Outcome, waitActive: bool, after: seq<nat>)
    | SplitRead(own: seq<nat>, bypassed: bool, outcome: Outcome, after: seq<nat>, handled: bool)
    | Extended(owner: NoticeOwner, waits: bool, error: bool)
    | GiveBack
    | ResetSession

  ghost predicate UserOk(user: seq<Result>) {
    forall i :: 0 <= i < |user| ==> !user[i].Error?
  }

  function Sets(n: nat): (rs: seq<Result>)
    ensures |rs| == n && AllQuiet(rs)
  {
    seq(n, _ => Done(0))
  }

  /** The results of `total` wrapper SETs followed by the user statement. */
  function Answer(total: nat, o: Outcome): seq<Result> {
    match o
    case Completes(user) => Sets(total) + user
    case FailsAt(at, timeout) => Sets(if at < total then at else total) + [Error(at, timeout)]
  }

  predicate UserRan(total: nat, o: Outcome) {
    o.Completes? || o.at >= total
  }

  /** Start, fetch everything, free: the connection's part of one simple query. */
  function Exchange(c: Conn, o: Outcome, waitActive: bool): Conn {
    Freed(After(Started(c), Answer(c.dispatch.stmts, o), waitActive), o.FailsAt?)
  }

  function Logged(b: Backend, total: nat, o: Outcome, s: Seen): seq<Seen> {
    if UserRan(total, o) then b.log + [s] else b.log
  }

  /** A dirty connection runs the user query behind the reset SET, so it sees no XIDs. */
  function RunSimple(b: Backend, stmts: nat, o: Outcome, waitActive: bool, after: seq<nat>): Backend {
    var c := Dispatched(b.conn, false, stmts, ConsistencyWait);
    var seen := if c.dispatch.reset then [] else b.xids;
    Backend(Exchange(c, o, waitActive),
            if !c.dispatch.reset then b.xids else if o.Completes? then [] else after,
            Logged(b, c.dispatch.stmts, o, Seen(true, seen)))
  }

  /** What a split read sends: its marker is installed first. */
  function SplitDispatched(c: Conn, bypassed: bool): Conn {
    Dispatched(c.(dirty := true, resetConsumed := false), false, SplitSets(bypassed), TxnSplitWait)
  }

  function SplitSets(bypassed: bool): nat {
    if bypassed then 1 else 4
  }

  /** A committed batch ends the backend's split state. */
  function RunSplit(b: Backend, own: seq<nat>, bypassed: bool, o: Outcome, after: seq<nat>, handled: bool): Backend {
    var e := Exchange(SplitDispatched(b.conn, bypassed), o, false);
    Backend(e.(reusable := e.reusable && (handled || !e.wrap.failed)),
            if o.Completes? then [] else after,
            Logged(b, SplitSets(bypassed), o, Seen(false, own)))
  }

  function RunExtended(b: Backend, owner: NoticeOwner, waits: bool, error: bool): Backend {
    var c := Dispatched(b.conn, true, 0, NoWrapper);
    var w := if waits then c.(wrap := Observed(ExtendedBegun(owner), !error)) else c;
    b.(conn := Freed(w, error), log := b.log + [Seen(false, b.xids)])
  }

  function Apply(b: Backend, step: Step): Backend {
    match step
    case Simple(stmts, o, waitActive, after) => RunSimple(b, stmts, o, waitActive, after)
    case SplitRead(own, bypassed, o, after, handled) => RunSplit(b, own, bypassed, o, after, handled)
    case Extended(owner, waits, error) => RunExtended(b, owner, waits, error)
    case GiveBack => b.(conn := Released(b.conn))
    case ResetSession => b.(conn := Cleared(b.conn).(dirty := false, resetConsumed := false), xids := [])
  }

  /** Non-empty backend XIDs are flagged. */
  ghost predicate Flagged(b: Backend) {
    (b.xids != [] ==> b.conn.dirty) && !b.conn.resetConsumed && Reachable(b.conn)
  }

  /** No ordinary query logged from entry `k` on has seen XIDs. */
  ghost predicate NoneSeen(log: seq<Seen>, k: nat) {
    forall i :: k <= i < |log| && log[i].ordinary ==> log[i].xids == []
  }

  ghost predicate Clean(b: Backend) {
    Flagged(b) && NoneSeen(b.log, 0)
  }

  /** A completed batch has no error among its results. */
  ghost predicate WellFormed(step: Step) {
    && (step.Simple? && step.outcome.Completes? ==> UserOk(step.outcome.user))
    && (step.SplitRead? && step.outcome.Completes? ==> UserOk(step.outcome.user))
  }

  /**
   * An extended query drops the marker while XIDs remain when it finds the wrap state of a
   * split read whose SETs succeeded, does not wait itself, and ends without an error.
   */
  predicate Admissible(b: Backend, step: Step) {
    step.Extended? ==>
      b.xids == [] || step.waits || step.error || b.conn.wrap.kind != TxnSplitWait || !b.conn.wrap.succeeded
  }

  // ----- one exchange

  /** Results that are not errors leave a finished countdown alone. */
  lemma {:induction false} UserResultsChangeNothing(c: Conn, user: seq<Result>, waitActive: bool)
    requires c.wrap.pending == 0 && UserOk(user)
    ensures After(c, user, waitActive) == c
  {
    if user != [] {
      UserResultsChangeNothing(c, user[..|user| - 1], waitActive);
    }
  }

  /** Counting down all SETs of a dispatched query. */
  lemma AllSetsConsumed(c: Conn, waitActive: bool)
    requires !c.resetConsumed
    ensures var n := c.dispatch.stmts;
      var a := After(Started(c), Sets(n), waitActive);
      && a.wrap.pending == 0 && a.wrap.kind == (if n > 0 then c.dispatch.kind else NoWrapper)
      && a.wrap.succeeded == (n > 0) && a.resetConsumed == (n > 0 && c.dispatch.reset)
      && a.dirty == c.dirty && Reachable(a) && a.dispatch == IDLE_DISPATCH
  {
    var n := c.dispatch.stmts;
    if n > 0 {
      Countdown(Started(c), n, Sets(n), waitActive);
    }
  }

  lemma ExchangeCompletes(c: Conn, o: Outcome, waitActive: bool)
    requires !c.resetConsumed && o.Completes? && UserOk(o.user)
    ensures var e := Exchange(c, o, waitActive);
      && Reachable(e) && !e.resetConsumed
      && e.dirty == (c.dirty && !(c.dispatch.stmts > 0 && (c.dispatch.reset || c.dispatch.kind == TxnSplitWait)))
  {
    var n := c.dispatch.stmts;
    AllSetsConsumed(c, waitActive);
    AfterConcat(Started(c), Sets(n), o.user, waitActive);
    UserResultsChangeNothing(After(Started(c), Sets(n), waitActive), o.user, waitActive);
  }

  /** No result changes the marker or the wrapper's kind, or makes a connection reusable again. */
  ghost predicate Follow(c: Conn, a: Conn) {
    a.dirty == c.dirty && a.wrap.kind == c.wrap.kind && Reachable(a) && (a.reusable ==> c.reusable)
  }

  lemma ResultKeepsMarker(c: Conn, r: Result, waitActive: bool)
    requires Reachable(c)
    ensures Follow(c, OneResult(c, r, waitActive).0)
  {
  }

  lemma {:induction false} ResultsKeepMarker(c: Conn, rs: seq<Result>, waitActive: bool)
    requires Reachable(c)
    ensures Follow(c, After(c, rs, waitActive))
  {
    if rs != [] {
      ResultsKeepMarker(c, rs[..|rs| - 1], waitActive);
      ResultKeepsMarker(After(c, rs[..|rs| - 1], waitActive), rs[|rs| - 1], waitActive);
    }
  }

  /** No exchange ends with a wrapper it did not start with, or on a connection reusable again. */
  lemma ExchangeKeeps(c: Conn, o: Outcome, waitActive: bool)
    ensures var e := Exchange(c, o, waitActive);
      && e.wrap.kind == (if c.dispatch.stmts > 0 then c.dispatch.kind else NoWrapper)
      && (e.reusable ==> c.reusable) && (e.dirty ==> c.dirty) && Reachable(e) && !e.resetConsumed
  {
    ResultsKeepMarker(Started(c), Answer(c.dispatch.stmts, o), waitActive);
  }

  /** A failed batch never clears the marker. */
  lemma ExchangeFails(c: Conn, o: Outcome, waitActive: bool)
    requires o.FailsAt?
    ensures var e := Exchange(c, o, waitActive); Reachable(e) && !e.resetConsumed && e.dirty == c.dirty
  {
    ResultsKeepMarker(Started(c), Answer(c.dispatch.stmts, o), waitActive);
  }

  // ----- each step

  lemma SimpleKeeps(b: Backend, stmts: nat, o: Outcome, waitActive: bool, after: seq<nat>)
    requires Flagged(b) && (o.Completes? ==> UserOk(o.user))
    ensures var n := RunSimple(b, stmts, o, waitActive, after);
      && Flagged(n) && n.conn.wrap.kind != TxnSplitWait && (n.conn.reusable ==> b.conn.reusable)
      && b.log <= n.log && NoneSeen(n.log, |b.log|)
  {
    var c := Dispatched(b.conn, false, stmts, ConsistencyWait);
    ExchangeKeeps(c, o, waitActive);
    if o.Completes? {
      ExchangeCompletes(c, o, waitActive);
    } else {
      ExchangeFails(c, o, waitActive);
    }
  }

  lemma SplitKeeps(b: Backend, own: seq<nat>, bypassed: bool, o: Outcome, after: seq<nat>, handled: bool)
    requires Reachable(b.conn) && (o.Completes? ==> UserOk(o.user))
    ensures var n := RunSplit(b, own, bypassed, o, after, handled);
      && Flagged(n) && (o.Completes? ==> !n.conn.dirty) && (n.conn.reusable ==> b.conn.reusable)
      && b.log <= n.log && NoneSeen(n.log, |b.log|)
  {
    var c := SplitDispatched(b.conn, bypassed);
    ExchangeKeeps(c, o, false);
    if o.Completes? {
      ExchangeCompletes(c, o, false);
    } else {
      ExchangeFails(c, o, false);
    }
  }

  /** A marker an extended query drops is the one a split read left evidence for. */
  lemma ExtendedExact(b: Backend, owner: NoticeOwner, waits: bool, error: bool)
    requires Flagged(b)
    ensures var n := RunExtended(b, owner, waits, error);
      && (Flagged(n) <==> Admissible(b, Extended(owner, waits, error)))
      && (b.conn.dirty ==> !n.conn.reusable) && (n.conn.reusable ==> b.conn.reusable)
      && b.log <= n.log && NoneSeen(n.log, |b.log|)
  {
  }

  lemma OtherStepsKeep(b: Backend, step: Step)
    requires Flagged(b) && WellFormed(step) && !step.Extended?
    ensures var n := Apply(b, step); Flagged(n) && b.log <= n.log && NoneSeen(n.log, |b.log|)
  {
    match step
    case Simple(stmts, o, waitActive, after) => SimpleKeeps(b, stmts, o, waitActive, after);
    case SplitRead(own, bypassed, o, after, handled) => SplitKeeps(b, own, bypassed, o, after, handled);
    case _ =>
  }

  /** From a flagged state no ordinary query sees XIDs; they stay flagged exactly when the step is admissible. */
  lemma StepExact(b: Backend, step: Step)
    requires Flagged(b) && WellFormed(step)
    ensures var n := Apply(b, step);
      && (Flagged(n) <==> Admissible(b, step))
      && b.log <= n.log && NoneSeen(n.log, |b.log|)
  {
    if step.Extended? {
      ExtendedExact(b, step.owner, step.waits, step.error);
    } else {
      OtherStepsKeep(b, step);
    }
  }

  /**
   * A simple query that completes leaves the backend clean and unflagged, whatever it
   * found; so does a split read. The reset is not repeated for ever.
   */
  lemma CompletedQueryCleans(b: Backend, stmts: nat, o: Outcome, waitActive: bool, own: seq<nat>, bypassed: bool,
                             after: seq<nat>, handled: bool)
    requires Clean(b) && o.Completes? && UserOk(o.user)
    ensures var n := RunSimple(b, stmts, o, waitActive, after); n.xids == [] && !n.conn.dirty
    ensures var n := RunSplit(b, own, bypassed, o, after, handled); n.xids == [] && !n.conn.dirty
  {
    ExchangeCompletes(Dispatched(b.conn, false, stmts, ConsistencyWait), o, waitActive);
    ExchangeCompletes(SplitDispatched(b.conn, bypassed), o, false);
  }

  lemma FailedReset(c: Conn, timeout: bool, waitActive: bool)
    requires c.dispatch.stmts > 0 && c.dispatch.reset
    ensures !Exchange(c, FailsAt(0, timeout), waitActive).reusable
  {
    var rs := Answer(c.dispatch.stmts, FailsAt(0, timeout));
    assert rs == [Error(0, timeout)];
    SetFails(Started(c), c.dispatch.stmts, rs, 0, waitActive);
  }

  /** When the reset SET itself fails the user statement never runs and the connection is given up. */
  lemma FailedResetRetires(b: Backend, stmts: nat, timeout: bool, waitActive: bool, after: seq<nat>)
    requires Clean(b) && b.conn.dirty
    ensures var n := RunSimple(b, stmts, FailsAt(0, timeout), waitActive, after);
      !n.conn.reusable && n.conn.dirty && n.log == b.log
  {
    var c := Dispatched(b.conn, false, stmts, ConsistencyWait);
    FailedReset(c, timeout, waitActive);
    ExchangeFails(c, FailsAt(0, timeout), waitActive);
  }

  /** What each statement that runs is recorded to have seen. */
  lemma LogExact(b: Backend, stmts: nat, o: Outcome, waitActive: bool, after: seq<nat>, own: seq<nat>, bypassed: bool,
                 handled: bool)
    ensures o.Completes? ==>
      RunSimple(b, stmts, o, waitActive, after).log == b.log + [Seen(true, if b.conn.dirty then [] else b.xids)]
    ensures var n := RunSplit(b, own, bypassed, o, after, handled);
      && n.log == (if o.FailsAt? && o.at < SplitSets(bypassed) then b.log else b.log + [Seen(false, own)])
      && n.xids == if o.FailsAt? then after else []
    ensures forall owner, waits, error :: RunExtended(b, owner, waits, error).log == b.log + [Seen(false, b.xids)]
  {
  }

  /** A session reset leaves nothing; a release leaves what belongs to the backend and nothing of the request. */
  lemma BoundariesExact(b: Backend)
    ensures var n := Apply(b, ResetSession);
      n.xids == [] && !n.conn.dirty && n.conn.wrap == IDLE_WRAP && n.conn.reusable == b.conn.reusable
    ensures var n := Apply(b, GiveBack);
      && n.xids == b.xids && n.conn.dirty == b.conn.dirty && n.conn.reusable == b.conn.reusable
      && (Reachable(b.conn) ==> n.conn.wrap == IDLE_WRAP && n.conn.dispatch == IDLE_DISPATCH)
  {
    if Reachable(b.conn) && !DispatchActive(b.conn.dispatch) && !WrapActive(b.conn.wrap) {
      InactiveIsDefault(b.conn);
    }
  }

  // ----- whole runs

  function Run(b: Backend, steps: seq<Step>): Backend {
    if steps == [] then b else Apply(Run(b, steps[..|steps| - 1]), steps[|steps| - 1])
  }

  ghost predicate AllAdmissible(b: Backend, steps: seq<Step>) {
    steps == [] || (AllAdmissible(b, steps[..|steps| - 1])
      && Admissible(Run(b, steps[..|steps| - 1]), steps[|steps| - 1]))
  }

  ghost predicate AllWellFormed(steps: seq<Step>) {
    forall i :: 0 <= i < |steps| ==> WellFormed(steps[i])
  }

  /** Clean before every step and at the end. */
  ghost predicate CleanThroughout(b: Backend, steps: seq<Step>) {
    Clean(Run(b, steps)) && (steps == [] || CleanThroughout(b, steps[..|steps| - 1]))
  }

  /** Entries that were fine stay so when a run only adds fine ones. */
  lemma NoneSeenJoins(before: seq<Seen>, after: seq<Seen>, k: nat)
    requires before <= after && NoneSeen(before, k) && NoneSeen(after, |before|)
    ensures NoneSeen(after, k)
  {
    assert forall i :: 0 <= i < |before| ==> after[i] == before[i];
  }

  /** A run is clean throughout exactly when no extended query drops a marker over XIDs. */
  lemma {:induction false} RunExact(b: Backend, steps: seq<Step>)
    requires Clean(b) && AllWellFormed(steps)
    ensures CleanThroughout(b, steps) <==> AllAdmissible(b, steps)
    ensures AllAdmissible(b, steps) ==> Clean(Run(b, steps))
  {
    if steps != [] {
      var n := |steps| - 1;
      RunExact(b, steps[..n]);
      if CleanThroughout(b, steps[..n]) {
        StepExact(Run(b, steps[..n]), steps[n]);
        NoneSeenJoins(Run(b, steps[..n]).log, Run(b, steps).log, 0);
      }
    }
  }

  function NewBackend(): Backend {
    Backend(Conn(IDLE_DISPATCH, IDLE_WRAP, false, false, true), [], [])
  }

  // ----- failed split reads are released

  predicate FailedRead(step: Step) {
    step.SplitRead? && step.outcome.FailsAt?
  }

  /** The failure handler gives the reader of a failed split read up at once. */
  ghost predicate FailuresReleased(steps: seq<Step>) {
    |steps| < 2
    || (FailuresReleased(steps[..|steps| - 1])
        && (FailedRead(steps[|steps| - 2]) ==> steps[|steps| - 1].GiveBack? || steps[|steps| - 1].ResetSession?))
  }

  /** What a split read leaves behind on a connection it has marked. */
  predicate Evidence(c: Conn) {
    c.dirty && c.wrap.kind == TxnSplitWait && c.wrap.succeeded
  }

  /** A step on a connection without evidence, or one that takes the evidence away. */
  lemma QuietStep(b: Backend, step: Step)
    requires Flagged(b) && WellFormed(step)
    requires !Evidence(b.conn) || step.GiveBack? || step.ResetSession?
    ensures var n := Apply(b, step);
      && Flagged(n) && (Evidence(n.conn) ==> FailedRead(step))
      && b.log <= n.log && NoneSeen(n.log, |b.log|)
  {
    StepExact(b, step);
    match step
    case Simple(stmts, o, waitActive, after) => SimpleKeeps(b, stmts, o, waitActive, after);
    case SplitRead(own, bypassed, o, after, handled) => SplitKeeps(b, own, bypassed, o, after, handled);
    case _ =>
  }

  /** The step behind a failed read is its release. */
  lemma FailureThenRelease(steps: seq<Step>)
    requires steps != [] && FailuresReleased(steps)
    ensures var front, step := steps[..|steps| - 1], steps[|steps| - 1];
      && FailuresReleased(front)
      && (front != [] && FailedRead(front[|front| - 1]) ==> step.GiveBack? || step.ResetSession?)
  {
  }

  lemma {:induction false} ReleasedRunsKeep(b: Backend, steps: seq<Step>)
    requires Flagged(b) && !Evidence(b.conn) && AllWellFormed(steps) && FailuresReleased(steps)
    ensures var n := Run(b, steps); Flagged(n) && b.log <= n.log && NoneSeen(n.log, |b.log|)
    ensures Evidence(Run(b, steps).conn) ==> steps != [] && FailedRead(steps[|steps| - 1])
  {
    if steps != [] {
      var front := steps[..|steps| - 1];
      var m := Run(b, front);
      FailureThenRelease(steps);
      ReleasedRunsKeep(b, front);
      QuietStep(m, steps[|steps| - 1]);
      NoneSeenJoins(m.log, Run(b, steps).log, |b.log|);
    }
  }

  /**
   * In every run of queries of any sessions in which a failed split read is followed by the
   * release the failure handler makes, non-empty backend XIDs are always flagged and no
   * ordinary query ever sees any, whatever an aborted batch leaves on the backend.
   */
  lemma OrdinaryQueriesSeeNoXids(steps: seq<Step>)
    requires AllWellFormed(steps) && FailuresReleased(steps)
    ensures Clean(Run(NewBackend(), steps))
  {
    ReleasedRunsKeep(NewBackend(), steps);
  }

  // ----- later sessions

  /** Unflagged XIDs are only on connections that are given up. */
  ghost predicate Contained(b: Backend) {
    (b.xids != [] ==> b.conn.dirty || !b.conn.reusable) && !b.conn.resetConsumed && Reachable(b.conn)
  }

  /** A simple query on an unflagged connection leaves the backend's XIDs alone. */
  lemma UnflaggedSimple(b: Backend, stmts: nat, o: Outcome, waitActive: bool, after: seq<nat>)
    requires Contained(b) && !b.conn.dirty && (o.Completes? ==> UserOk(o.user))
    ensures Contained(RunSimple(b, stmts, o, waitActive, after))
  {
    var c := Dispatched(b.conn, false, stmts, ConsistencyWait);
    ExchangeKeeps(c, o, waitActive);
  }

  lemma ContainedStep(b: Backend, step: Step)
    requires Contained(b) && WellFormed(step)
    ensures Contained(Apply(b, step))
  {
    match step
    case Simple(stmts, o, waitActive, after) =>
      if b.conn.dirty {
        SimpleKeeps(b, stmts, o, waitActive, after);
      } else {
        UnflaggedSimple(b, stmts, o, waitActive, after);
      }
    case SplitRead(own, bypassed, o, after, handled) => SplitKeeps(b, own, bypassed, o, after, handled);
    case _ =>
  }

  lemma {:induction false} ContainedRun(steps: seq<Step>)
    requires AllWellFormed(steps)
    ensures Contained(Run(NewBackend(), steps))
  {
    if steps != [] {
      ContainedRun(steps[..|steps| - 1]);
      ContainedStep(Run(NewBackend(), steps[..|steps| - 1]), steps[|steps| - 1]);
    }
  }

  /**
   * After any run at all, a connection that is still reusable when it is given back starts
   * clean: no ordinary query of a later session sees XIDs, up to that session's own failed
   * split reads.
   */
  lemma LaterSessionsSeeNoXids(before: seq<Step>, steps: seq<Step>)
    requires AllWellFormed(before) && AllWellFormed(steps) && FailuresReleased(steps)
    requires Run(NewBackend(), before).conn.reusable
    ensures var b := Apply(Run(NewBackend(), before), GiveBack);
      && b.log <= Run(b, steps).log && NoneSeen(Run(b, steps).log, |b.log|) && Flagged(Run(b, steps))
  {
    ContainedRun(before);
    ReleasedRunsKeep(Apply(Run(NewBackend(), before), GiveBack), steps);
  }

  lemma {:induction false} NoSplitNothingToRelease(steps: seq<Step>)
    requires forall i :: 0 <= i < |steps| ==> !steps[i].SplitRead?
    ensures FailuresReleased(steps)
  {
    if |steps| >= 2 {
      NoSplitNothingToRelease(steps[..|steps| - 1]);
    }
  }

  /** In particular a later session without split reads needs nothing from anyone. */
  lemma LaterSessionsWithoutSplits(before: seq<Step>, steps: seq<Step>)
    requires AllWellFormed(before) && AllWellFormed(steps)
    requires forall i :: 0 <= i < |steps| ==> !steps[i].SplitRead?
    requires Run(NewBackend(), before).conn.reusable
    ensures var b := Apply(Run(NewBackend(), before), GiveBack);
      b.log <= Run(b, steps).log && NoneSeen(Run(b, steps).log, |b.log|)
  {
    NoSplitNothingToRelease(steps);
    LaterSessionsSeeNoXids(before, steps);
  }

  // ----- what decides

  /** A split read whose user statement fails, and whose abort leaves its XIDs on the backend. */
  function FailedSplit(own: seq<nat>, bypassed: bool): Step {
    SplitRead(own, bypassed, FailsAt(SplitSets(bypassed), false), own, true)
  }

  /** A connection that carries evidence, up to the two kinds of split read and reusability. */
  function EvidenceConn(bypassed: bool, reusable: bool): Conn {
    var n := SplitSets(bypassed);
    Conn(IDLE_DISPATCH, Wrap(true, false, true, n, 0, TxnSplitWait, false, QueryResult), true, false, reusable)
  }

  /** The answered wrapper of a split read whose SETs all succeeded. */
  lemma SplitSetsConsumed(c: Conn, bypassed: bool)
    ensures var d := SplitDispatched(c, bypassed);
      After(Started(d), Sets(SplitSets(bypassed)), false) == EvidenceConn(bypassed, c.reusable)
  {
    Countdown(Started(SplitDispatched(c, bypassed)), SplitSets(bypassed), Sets(SplitSets(bypassed)), false);
  }

  /** An error after the SETs keeps the evidence, unless it is the wait's timeout. */
  lemma SplitFailsLate(c: Conn, bypassed: bool, at: nat, timeout: bool)
    requires at >= SplitSets(bypassed)
    ensures var e := Exchange(SplitDispatched(c, bypassed), FailsAt(at, timeout), false);
      var v := EvidenceConn(bypassed, c.reusable);
      e == if timeout then v.(wrap := Failed(v.wrap)) else v
  {
    var d := SplitDispatched(c, bypassed);
    var rs := Sets(SplitSets(bypassed));
    SplitSetsConsumed(c, bypassed);
    AfterConcat(Started(d), rs, [Error(at, timeout)], false);
    assert [Error(at, timeout)][..0] == [];
    assert After(EvidenceConn(bypassed, c.reusable), [Error(at, timeout)], false)
        == OneResult(EvidenceConn(bypassed, c.reusable), Error(at, timeout), false).0;
  }

  lemma AnswerStops(n: nat, at: nat, timeout: bool)
    requires at < n
    ensures var rs := Answer(n, FailsAt(at, timeout)); |rs| == at + 1 && AllQuiet(rs[..at]) && rs[at].Error?
  {
    assert Answer(n, FailsAt(at, timeout))[..at] == Sets(at);
  }

  /** An error among the SETs leaves no success, and takes nothing from the connection but that. */
  lemma WrapperFails(d: Conn, rs: seq<Result>, at: nat)
    requires at < d.dispatch.stmts && !d.dispatch.reset && |rs| == at + 1 && AllQuiet(rs[..at]) && rs[at].Error?
    ensures var a := After(Started(d), rs, false);
      a.wrap.failed && !a.wrap.succeeded && a.dirty == d.dirty && a.reusable == d.reusable
  {
    SetFails(Started(d), d.dispatch.stmts, rs, at, false);
  }

  lemma EarlyExchange(d: Conn, at: nat, timeout: bool)
    requires at < d.dispatch.stmts && !d.dispatch.reset
    ensures var e := Exchange(d, FailsAt(at, timeout), false);
      !e.wrap.succeeded && e.wrap.failed && e.dirty == d.dirty && e.reusable == d.reusable
  {
    AnswerStops(d.dispatch.stmts, at, timeout);
    WrapperFails(d, Answer(d.dispatch.stmts, FailsAt(at, timeout)), at);
  }

  lemma SplitFailsEarly(c: Conn, bypassed: bool, at: nat, timeout: bool)
    requires at < SplitSets(bypassed)
    ensures var e := Exchange(SplitDispatched(c, bypassed), FailsAt(at, timeout), false);
      !e.wrap.succeeded && e.wrap.failed && e.dirty && e.reusable == c.reusable
  {
    EarlyExchange(SplitDispatched(c, bypassed), at, timeout);
  }

  /** A split read whose wrapper fails costs the reader its place in the pool, unless the failure handler decides. */
  lemma FailedWrapperRetires(b: Backend, own: seq<nat>, bypassed: bool, at: nat, timeout: bool, after: seq<nat>,
                             handled: bool)
    requires at < SplitSets(bypassed)
    ensures var n := RunSplit(b, own, bypassed, FailsAt(at, timeout), after, handled);
      n.conn.reusable == (handled && b.conn.reusable) && n.conn.wrap.failed && n.conn.dirty
  {
    SplitFailsEarly(b.conn, bypassed, at, timeout);
  }

  /** Evidence has one shape on every connection the proxy can reach. */
  ghost predicate Shaped(c: Conn) {
    Evidence(c) ==> exists bypassed :: c == EvidenceConn(bypassed, c.reusable)
  }

  lemma ShapedSplit(c: Conn, bypassed: bool, at: nat, timeout: bool)
    ensures Shaped(Exchange(SplitDispatched(c, bypassed), FailsAt(at, timeout), false))
  {
    if at < SplitSets(bypassed) {
      SplitFailsEarly(c, bypassed, at, timeout);
    } else {
      SplitFailsLate(c, bypassed, at, timeout);
    }
  }

  lemma ShapedExtended(b: Backend, owner: NoticeOwner, waits: bool, error: bool)
    requires Shaped(b.conn)
    ensures Shaped(RunExtended(b, owner, waits, error).conn)
  {
    var n := RunExtended(b, owner, waits, error);
    if Evidence(n.conn) {
      var bypassed :| b.conn == EvidenceConn(bypassed, b.conn.reusable);
      assert n.conn == EvidenceConn(bypassed, false);
    }
  }

  lemma ShapedStep(b: Backend, step: Step)
    requires Contained(b) && Shaped(b.conn) && WellFormed(step)
    ensures Shaped(Apply(b, step).conn)
  {
    match step
    case Simple(stmts, o, waitActive, after) =>
      ExchangeKeeps(Dispatched(b.conn, false, stmts, ConsistencyWait), o, waitActive);
    case SplitRead(own, bypassed, o, after, handled) =>
      if o.Completes? {
        SplitKeeps(b, own, bypassed, o, after, handled);
      } else {
        ShapedSplit(b.conn, bypassed, o.at, o.timeout);
      }
    case Extended(owner, waits, error) => ShapedExtended(b, owner, waits, error);
    case _ =>
  }

  lemma {:induction false} ShapedRun(steps: seq<Step>)
    requires AllWellFormed(steps)
    ensures Shaped(Run(NewBackend(), steps).conn)
  {
    if steps != [] {
      var front := steps[..|steps| - 1];
      ShapedRun(front);
      ContainedRun(front);
      ShapedStep(Run(NewBackend(), front), steps[|steps| - 1]);
    }
  }

  /** A rule for handing an extended query to a connection, from what the proxy knows. */
  type Policy = (Conn, bool) -> bool

  ghost predicate Follows(p: Policy, steps: seq<Step>) {
    steps == []
    || (Follows(p, steps[..|steps| - 1])
        && (steps[|steps| - 1].Extended? ==>
              p(Run(NewBackend(), steps[..|steps| - 1]).conn, steps[|steps| - 1].waits)))
  }

  ghost predicate KeepsClean(p: Policy) {
    forall steps :: AllWellFormed(steps) && Follows(p, steps) ==> Clean(Run(NewBackend(), steps))
  }

  /** It never sends a query without a wait to a reachable connection that carries evidence. */
  ghost predicate AvoidsEvidence(p: Policy) {
    forall steps :: AllWellFormed(steps) && Evidence(Run(NewBackend(), steps).conn) ==>
      !p(Run(NewBackend(), steps).conn, false)
  }

  lemma {:induction false} AvoidingIsAdmissible(p: Policy, steps: seq<Step>)
    requires AvoidsEvidence(p) && AllWellFormed(steps) && Follows(p, steps)
    ensures AllAdmissible(NewBackend(), steps) && Clean(Run(NewBackend(), steps))
  {
    if steps != [] {
      AvoidingIsAdmissible(p, steps[..|steps| - 1]);
    }
    RunExact(NewBackend(), steps);
  }

  /** A run after which the connection is given up: the reset SET of the next query fails. */
  function GivenUp(): seq<Step> {
    [FailedSplit([1], true)] + [Simple(0, FailsAt(0, false), false, [1])]
  }

  /** A run without extended queries to a connection with evidence and XIDs. */
  function Witness(bypassed: bool, reusable: bool): seq<Step> {
    (if reusable then [] else GivenUp()) + [FailedSplit([1], bypassed)]
  }

  lemma RunAppend(b: Backend, steps: seq<Step>, step: Step)
    ensures Run(b, steps + [step]) == Apply(Run(b, steps), step)
  {
    assert (steps + [step])[..|steps|] == steps;
  }

  lemma GivenUpIsNotReusable()
    ensures !Run(NewBackend(), GivenUp()).conn.reusable
  {
    var split := FailedSplit([1], true);
    var b := Apply(NewBackend(), split);
    RunAppend(NewBackend(), [], split);
    assert [] + [split] == [split];
    RunAppend(NewBackend(), [split], Simple(0, FailsAt(0, false), false, [1]));
    SplitFailsLate(NewBackend().conn, true, 1, false);
    FailedReset(Dispatched(b.conn, false, 0, ConsistencyWait), false, false);
  }

  lemma WitnessReaches(bypassed: bool, reusable: bool)
    ensures var b := Run(NewBackend(), Witness(bypassed, reusable));
      b.conn == EvidenceConn(bypassed, reusable) && b.xids == [1]
  {
    var front := if reusable then [] else GivenUp();
    GivenUpIsNotReusable();
    RunAppend(NewBackend(), front, FailedSplit([1], bypassed));
    SplitFailsLate(Run(NewBackend(), front).conn, bypassed, SplitSets(bypassed), false);
  }

  lemma {:induction false} NothingToDecide(p: Policy, steps: seq<Step>)
    requires forall i :: 0 <= i < |steps| ==> !steps[i].Extended?
    ensures Follows(p, steps)
  {
    if steps != [] {
      NothingToDecide(p, steps[..|steps| - 1]);
    }
  }

  lemma FollowsAppend(p: Policy, steps: seq<Step>, waits: bool)
    requires AllWellFormed(steps) && Follows(p, steps) && p(Run(NewBackend(), steps).conn, waits)
    ensures var more := steps + [Extended(QueryResult, waits, false)]; AllWellFormed(more) && Follows(p, more)
  {
    assert (steps + [Extended(QueryResult, waits, false)])[..|steps|] == steps;
  }

  /** An extended query without a wait drops the marker over the XIDs. */
  lemma EvidenceLeaks(b: Backend, bypassed: bool, reusable: bool)
    requires b.conn == EvidenceConn(bypassed, reusable) && b.xids == [1]
    ensures !Clean(Apply(b, Extended(QueryResult, false, false)))
  {
  }

  lemma WitnessFollows(p: Policy, bypassed: bool, reusable: bool)
    ensures AllWellFormed(Witness(bypassed, reusable)) && Follows(p, Witness(bypassed, reusable))
  {
    NothingToDecide(p, Witness(bypassed, reusable));
  }

  lemma EvidenceBreaks(p: Policy, bypassed: bool, reusable: bool)
    requires p(EvidenceConn(bypassed, reusable), false)
    ensures exists steps :: AllWellFormed(steps) && Follows(p, steps) && !Clean(Run(NewBackend(), steps))
  {
    var steps := Witness(bypassed, reusable);
    WitnessReaches(bypassed, reusable);
    WitnessFollows(p, bypassed, reusable);
    FollowsAppend(p, steps, false);
    RunAppend(NewBackend(), steps, Extended(QueryResult, false, false));
    EvidenceLeaks(Run(NewBackend(), steps), bypassed, reusable);
  }

  /**
   * Of the rules the proxy could follow for extended queries, exactly those keep every run
   * clean that send none without a wait to a connection with the evidence of a split read.
   */
  lemma SoundPoliciesExactly(p: Policy)
    ensures KeepsClean(p) <==> AvoidsEvidence(p)
  {
    if AvoidsEvidence(p) {
      forall steps | AllWellFormed(steps) && Follows(p, steps)
        ensures Clean(Run(NewBackend(), steps))
      {
        AvoidingIsAdmissible(p, steps);
      }
    } else {
      var steps :| AllWellFormed(steps) && Evidence(Run(NewBackend(), steps).conn)
        && p(Run(NewBackend(), steps).conn, false);
      ShapedRun(steps);
      var c := Run(NewBackend(), steps).conn;
      var bypassed :| c == EvidenceConn(bypassed, c.reusable);
      EvidenceBreaks(p, bypassed, c.reusable);
    }
  }

  /**
   * Without the release after a failed split read the claim fails within one session: an
   * extended query loses the marker, and the next ordinary query sees the XIDs. The
   * connection is then already one that will not be given back.
   */
  lemma StaleEvidenceLeaks(own: seq<nat>, bypassed: bool, user: seq<Result>)
    requires own != [] && UserOk(user)
    ensures var b := Apply(Apply(NewBackend(), FailedSplit(own, bypassed)), Extended(QueryResult, false, false));
      && !b.conn.dirty && b.xids == own && !b.conn.reusable
      && Apply(b, Simple(0, Completes(user), false, [])).log == b.log + [Seen(true, own)]
  {
    SplitFailsLate(NewBackend().conn, bypassed, SplitSets(bypassed), false);
    var b := Apply(Apply(NewBackend(), FailedSplit(own, bypassed)), Extended(QueryResult, false, false));
    assert Dispatched(b.conn, false, 0, ConsistencyWait).dispatch == IDLE_DISPATCH;
  }

  /** The backend forgets its split state on abort, as it does on commit. */
  ghost predicate ForgetsOnAbort(step: Step) {
    (step.Simple? ==> step.after == []) && (step.SplitRead? ==> step.after == [])
  }

  /** Then no XIDs ever outlive their batch, and nothing needs to be excluded. */
  lemma {:induction false} ForgetfulBackendIsClean(b: Backend, steps: seq<Step>)
    requires Clean(b) && b.xids == [] && AllWellFormed(steps)
    requires forall i :: 0 <= i < |steps| ==> ForgetsOnAbort(steps[i])
    ensures Clean(Run(b, steps)) && Run(b, steps).xids == []
  {
    if steps != [] {
      var n := |steps| - 1;
      ForgetfulBackendIsClean(b, steps[..n]);
      StepExact(Run(b, steps[..n]), steps[n]);
      NoneSeenJoins(Run(b, steps[..n]).log, Run(b, steps).log, 0);
    }
  }
}
