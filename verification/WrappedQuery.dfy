/**
 * How a backend connection hides the SET statements it prepends to a user query: the
 * dispatch snapshot, the countdown of wrapper results, and the filter that drops them.
 */
module WrappedQuery {

  datatype Kind = NoWrapper | ConsistencyWait | TxnSplitWait | TxnSplitXidsReset | ExtendedWait

  datatype NoticeOwner = QueryResult | SessionQueue

  /** The fields of `PolarDB_Query_WrapState`. */
  datatype Wrap = Wrap(
    wasWrapped: bool, failed: bool, succeeded: bool, total: nat, pending: nat,
    kind: Kind, resetPending: bool, owner: NoticeOwner)

  datatype Dispatch = Dispatch(stmts: nat, kind: Kind, reset: bool)

  const IDLE_WRAP := Wrap(false, false, false, 0, 0, NoWrapper, false, QueryResult)
  const IDLE_DISPATCH := Dispatch(0, NoWrapper, false)

  // ----- the wrap state's operations

  function Begun(n: nat, kind: Kind, reset: bool): Wrap {
    Wrap(n > 0, false, false, n, n, if n > 0 then kind else NoWrapper, n > 0 && reset, QueryResult)
  }

  function ExtendedBegun(owner: NoticeOwner): Wrap {
    Wrap(true, false, false, 0, 0, ExtendedWait, false, owner)
  }

  function Observed(w: Wrap, ok: bool): Wrap {
    if w.kind != ExtendedWait then w else w.(succeeded := w.succeeded || ok, owner := QueryResult)
  }

  function Failed(w: Wrap): Wrap {
    w.(failed := true, succeeded := false, pending := 0, resetPending := false)
  }

  function Consumed(w: Wrap): Wrap
    requires w.pending > 0
  {
    w.(pending := w.pending - 1, succeeded := w.succeeded || w.pending == 1)
  }

  predicate WrapActive(w: Wrap) {
    w.wasWrapped || w.failed || w.succeeded || w.total != 0 || w.pending != 0 || w.kind != NoWrapper || w.resetPending
  }

  predicate DispatchActive(d: Dispatch) {
    d.stmts != 0 || d.kind != NoWrapper || d.reset
  }

  predicate ConsumingReset(w: Wrap) {
    w.resetPending && w.pending == w.total
  }

  /** `PolarDB_Query_WrapState` as it is updated in place. */
  class WrapState {
    var wasWrapped: bool
    var stmtFailed: bool
    var stmtSucceeded: bool
    var stmtTotal: nat
    var stmtPending: nat
    var wrapperKind: Kind
    var resetPending: bool
    var noticeOwner: NoticeOwner

    function View(): Wrap
      reads this
    {
      Wrap(wasWrapped, stmtFailed, stmtSucceeded, stmtTotal, stmtPending, wrapperKind, resetPending, noticeOwner)
    }

    constructor ()
      ensures View() == IDLE_WRAP
    {
      wasWrapped, stmtFailed, stmtSucceeded, stmtTotal, stmtPending := false, false, false, 0, 0;
      wrapperKind, resetPending, noticeOwner := NoWrapper, false, QueryResult;
    }

    method Begin(n: nat, kind: Kind, txnXidsReset: bool)
      modifies this
      ensures View() == Begun(n, kind, txnXidsReset)
    {
      wasWrapped, stmtFailed, stmtSucceeded := n > 0, false, false;
      stmtTotal, stmtPending := n, n;
      wrapperKind := if n > 0 then kind else NoWrapper;
      resetPending := n > 0 && txnXidsReset;
      noticeOwner := QueryResult;
    }

    method BeginExtendedWait(owner: NoticeOwner)
      modifies this
      ensures View() == ExtendedBegun(owner)
    {
      wasWrapped, stmtFailed, stmtSucceeded, stmtTotal, stmtPending := true, false, false, 0, 0;
      wrapperKind, resetPending, noticeOwner := ExtendedWait, false, owner;
    }

    method ObserveExtendedWaitCompletion(succeeded: bool)
      modifies this
      ensures View() == Observed(old(View()), succeeded)
    {
      if wrapperKind != ExtendedWait {
        return;
      }
      if succeeded {
        stmtSucceeded := true;
      }
      noticeOwner := QueryResult;
    }

    method MarkWrapperSetFailed()
      modifies this
      ensures View() == Failed(old(View()))
    {
      stmtFailed, stmtSucceeded, stmtPending, resetPending := true, false, 0, false;
    }

    method ConsumeSuccessfulWrapperSet()
      requires stmtPending > 0
      modifies this
      ensures View() == Consumed(old(View()))
    {
      stmtPending := stmtPending - 1;
      if stmtPending == 0 {
        stmtSucceeded := true;
      }
    }

    method Clear()
      modifies this
      ensures View() == IDLE_WRAP
    {
      wasWrapped, stmtFailed, stmtSucceeded, stmtTotal, stmtPending := false, false, false, 0, 0;
      wrapperKind, resetPending, noticeOwner := NoWrapper, false, QueryResult;
    }
  }

  // ----- the connection

  /** The request-owned state, and the split-XID safety state that outlives a request. */
  datatype Conn = Conn(dispatch: Dispatch, wrap: Wrap, dirty: bool, resetConsumed: bool, reusable: bool)

  /** A result of the backend; `timeout` is the structured wait-timeout marker of an error. */
  datatype Result = Done(id: nat) | Empty(id: nat) | Rows(id: nat) | Error(id: nat, timeout: bool)

  predicate Quiet(r: Result) {
    r.Done? || r.Empty?
  }

  const RESET_SET_COUNT: nat := 1

  /** `async_query` in ASYNC_IDLE: snapshot the session's wrapper, prefix the reset if needed. */
  function Dispatched(c: Conn, extended: bool, stmts: nat, kind: Kind): Conn {
    var d := if !extended && stmts > 0 then Dispatch(stmts, kind, false) else IDLE_DISPATCH;
    if !extended && c.dirty && d.kind != TxnSplitWait then
      var kind := if d.kind == NoWrapper then TxnSplitXidsReset else d.kind;
      c.(dispatch := Dispatch(d.stmts + RESET_SET_COUNT, kind, true))
    else if !extended then c.(dispatch := d)
    else c.(dispatch := d, reusable := c.reusable && !c.dirty)
  }

  /** `query_start`. */
  function Started(c: Conn): Conn {
    c.(dispatch := IDLE_DISPATCH,
       wrap := if c.dispatch.stmts > 0 then Begun(c.dispatch.stmts, c.dispatch.kind, c.dispatch.reset) else IDLE_WRAP)
  }

  /** `polardb_handle_wrapper_set_error`, as far as the wrap state is concerned. */
  function ErrorHandled(w: Wrap, timeout: bool, waitActive: bool): Wrap {
    if !w.wasWrapped then w
    else if w.pending > 0 || (!waitActive && w.kind == TxnSplitWait && timeout) then Failed(w)
    else w
  }

  /** One backend result: the new state, and whether the result is forwarded. */
  function OneResult(c: Conn, r: Result, waitActive: bool): (Conn, bool) {
    if c.wrap.pending > 0 && Quiet(r) then
      if ConsumingReset(c.wrap)
      then (c.(wrap := Consumed(c.wrap).(resetPending := false), resetConsumed := true), false)
      else (c.(wrap := Consumed(c.wrap)), false)
    else if r.Error? then
      var c1 :=
        if c.wrap.pending > 0 && ConsumingReset(c.wrap) then c.(reusable := false, resetConsumed := false) else c;
      (c1.(wrap := ErrorHandled(c.wrap, r.timeout, waitActive)), true)
    else (c, true)
  }

  function After(c: Conn, rs: seq<Result>, waitActive: bool): Conn {
    if rs == [] then c else OneResult(After(c, rs[..|rs| - 1], waitActive), rs[|rs| - 1], waitActive).0
  }

  function Forwarded(c: Conn, rs: seq<Result>, waitActive: bool): seq<Result> {
    if rs == [] then []
    else
      var last := rs[|rs| - 1];
      Forwarded(c, rs[..|rs| - 1], waitActive)
      + if OneResult(After(c, rs[..|rs| - 1], waitActive), last, waitActive).1 then [last] else []
  }

  /** `async_free_result`: the dirty marker goes only with a completed, error-free query. */
  function Freed(c: Conn, error: bool): Conn {
    var split := c.dirty && c.wrap.kind == TxnSplitWait && c.wrap.succeeded && !error;
    c.(dirty := c.dirty && !split && !(c.resetConsumed && !error), resetConsumed := false)
  }

  /** `polardb_clear_request_state_for_release`, with its early return. */
  function Released(c: Conn): Conn {
    if !DispatchActive(c.dispatch) && !WrapActive(c.wrap) then c
    else c.(dispatch := IDLE_DISPATCH, wrap := IDLE_WRAP)
  }

  /** The same boundary without the early return. */
  function Cleared(c: Conn): Conn {
    c.(dispatch := IDLE_DISPATCH, wrap := IDLE_WRAP)
  }

  class Connection {
    var dispatch: Dispatch
    const wrap: WrapState
    var dirty: bool
    var resetConsumed: bool
    var reusable: bool

    function View(): Conn
      reads this, wrap
    {
      Conn(dispatch, wrap.View(), dirty, resetConsumed, reusable)
    }

    constructor ()
      ensures fresh(wrap) && View() == Conn(IDLE_DISPATCH, IDLE_WRAP, false, false, true)
    {
      wrap := new WrapState();
      dispatch, dirty, resetConsumed, reusable := IDLE_DISPATCH, false, false, true;
    }

    method AsyncQueryIdle(extended: bool, stmts: nat, kind: Kind)
      modifies this
      ensures View() == Dispatched(old(View()), extended, stmts, kind)
    {
      dispatch := IDLE_DISPATCH;
      if !extended && stmts > 0 {
        dispatch := dispatch.(stmts := stmts, kind := kind);
      }
      if !extended && dirty && dispatch.kind != TxnSplitWait {
        dispatch := dispatch.(stmts := dispatch.stmts + RESET_SET_COUNT, reset := true);
        if dispatch.kind == NoWrapper {
          dispatch := dispatch.(kind := TxnSplitXidsReset);
        }
      } else if extended && dirty {
        reusable := false;
      }
    }

    method QueryStart()
      modifies this, wrap
      ensures View() == Started(old(View()))
    {
      wrap.Clear();
      if dispatch.stmts > 0 {
        wrap.Begin(dispatch.stmts, dispatch.kind, dispatch.reset);
      }
      dispatch := IDLE_DISPATCH;
    }

    method HandleWrapperSetError(timeout: bool, waitActive: bool)
      modifies wrap
      ensures wrap.View() == ErrorHandled(old(wrap.View()), timeout, waitActive)
    {
      if !wrap.wasWrapped {
        return;
      }
      var isTimeout := (waitActive || wrap.wrapperKind == TxnSplitWait) && timeout;
      var splitTimeout := wrap.wrapperKind == TxnSplitWait && isTimeout;
      var consuming := wrap.stmtPending > 0;
      if !waitActive {
        if splitTimeout || consuming {
          wrap.MarkWrapperSetFailed();
        }
        return;
      }
      if consuming {
        wrap.MarkWrapperSetFailed();
      }
    }

    /** The body of the fetch loop for one complete result of a simple query. */
    method TakeResult(r: Result, waitActive: bool) returns (forward: bool)
      modifies this, wrap
      ensures (View(), forward) == OneResult(old(View()), r, waitActive)
    {
      if wrap.stmtPending > 0 {
        if Quiet(r) {
          var consumedReset := ConsumingReset(wrap.View());
          wrap.ConsumeSuccessfulWrapperSet();
          if consumedReset {
            resetConsumed := true;
            wrap.resetPending := false;
          }
          return false;
        } else if r.Error? {
          if ConsumingReset(wrap.View()) {
            reusable := false;
            resetConsumed := false;
          }
          HandleWrapperSetError(r.timeout, waitActive);
        }
      }
      if r.Error? {
        HandleWrapperSetError(r.timeout, waitActive);
      }
      return true;
    }

    /** The fetch loop over everything the backend sends for one simple query. */
    method FetchResults(rs: seq<Result>, waitActive: bool) returns (forwarded: seq<Result>)
      requires wrap.stmtPending > 0 ==> wrap.wasWrapped
      modifies this, wrap
      ensures View() == After(old(View()), rs, waitActive)
      ensures forwarded == UserResults(old(wrap.stmtPending), rs)
    {
      forwarded := [];
      var i := 0;
      ghost var c := View();
      while i < |rs|
        invariant 0 <= i <= |rs|
        invariant View() == After(c, rs[..i], waitActive)
        invariant forwarded == Forwarded(c, rs[..i], waitActive)
      {
        FetchStep(c, rs, i, waitActive);
        var forward := TakeResult(rs[i], waitActive);
        if forward {
          forwarded := forwarded + [rs[i]];
        }
        i := i + 1;
      }
      assert rs[..i] == rs;
      FilterRefines(c, rs, waitActive);
    }

    method AsyncFreeResult(error: bool)
      modifies this
      ensures View() == Freed(old(View()), error)
    {
      if dirty && wrap.wrapperKind == TxnSplitWait && wrap.stmtSucceeded && !error {
        dirty := false;
      }
      if resetConsumed {
        if !error {
          dirty := false;
        }
        resetConsumed := false;
      }
    }

    /** In every reachable state the early return makes no difference. */
    method ClearRequestStateForRelease()
      requires Reachable(View())
      modifies this, wrap
      ensures View() == Cleared(old(View()))
    {
      if !DispatchActive(dispatch) && !WrapActive(wrap.View()) {
        InactiveIsDefault(View());
        return;
      }
      dispatch := IDLE_DISPATCH;
      wrap.Clear();
    }
  }

  // ----- what the filter forwards

  /** The results meant for the client when the first `n` statements are wrapper SETs. */
  function UserResults(n: nat, rs: seq<Result>): seq<Result> {
    if n == 0 || rs == [] || rs[0].Error? then rs
    else if Quiet(rs[0]) then UserResults(n - 1, rs[1..])
    else [rs[0]] + UserResults(n, rs[1..])
  }

  lemma FetchStep(c: Conn, rs: seq<Result>, i: nat, waitActive: bool)
    requires i < |rs|
    ensures var (next, forward) := OneResult(After(c, rs[..i], waitActive), rs[i], waitActive);
      && After(c, rs[..i + 1], waitActive) == next
      && Forwarded(c, rs[..i + 1], waitActive) == Forwarded(c, rs[..i], waitActive) + if forward then [rs[i]] else []
  {
    assert rs[..i + 1][..i] == rs[..i];
  }

  /** The state before result `i` can be computed from either end of the sequence. */
  lemma {:induction false} AfterSplit(c: Conn, r: Result, rs: seq<Result>, waitActive: bool)
    ensures var c1 := OneResult(c, r, waitActive).0;
      && After(c, [r] + rs, waitActive) == After(c1, rs, waitActive)
      && Forwarded(c, [r] + rs, waitActive)
         == (if OneResult(c, r, waitActive).1 then [r] else []) + Forwarded(c1, rs, waitActive)
  {
    var all := [r] + rs;
    if rs == [] {
      assert all[..0] == [];
    } else {
      var front := rs[..|rs| - 1];
      assert all[..|all| - 1] == [r] + front && all[|all| - 1] == rs[|rs| - 1];
      AfterSplit(c, r, front, waitActive);
    }
  }

  /** What one result does to the countdown. */
  lemma CountdownStep(c: Conn, r: Result, waitActive: bool)
    requires c.wrap.pending > 0 ==> c.wrap.wasWrapped
    ensures var (n, forward) := OneResult(c, r, waitActive);
      && (forward <==> c.wrap.pending == 0 || !Quiet(r))
      && n.wrap.pending == (if !forward then c.wrap.pending - 1 else if r.Error? then 0 else c.wrap.pending)
      && n.wrap.wasWrapped == c.wrap.wasWrapped
  {
  }

  lemma UserResultsStep(n: nat, r: Result, rest: seq<Result>)
    ensures UserResults(n, [r] + rest) ==
      if n == 0 || r.Error? then [r] + rest
      else if Quiet(r) then UserResults(n - 1, rest) else [r] + UserResults(n, rest)
  {
    assert ([r] + rest)[1..] == rest;
  }

  /** For every result sequence the countdown forwards exactly the client's results. */
  lemma {:induction false} FilterRefines(c: Conn, rs: seq<Result>, waitActive: bool)
    requires c.wrap.pending > 0 ==> c.wrap.wasWrapped
    ensures Forwarded(c, rs, waitActive) == UserResults(c.wrap.pending, rs)
    decreases |rs|
  {
    if rs != [] {
      assert rs == [rs[0]] + rs[1..];
      AfterSplit(c, rs[0], rs[1..], waitActive);
      CountdownStep(c, rs[0], waitActive);
      UserResultsStep(c.wrap.pending, rs[0], rs[1..]);
      var (next, forward) := OneResult(c, rs[0], waitActive);
      FilterRefines(next, rs[1..], waitActive);
      assert UserResults(0, rs[1..]) == rs[1..];
    }
  }

  ghost predicate AllQuiet(rs: seq<Result>) {
    forall i :: 0 <= i < |rs| ==> Quiet(rs[i])
  }

  lemma {:induction false} SetsAreDropped(n: nat, rs: seq<Result>)
    requires n <= |rs| && AllQuiet(rs[..n])
    ensures UserResults(n, rs) == rs[n..]
  {
    if n > 0 {
      assert Quiet(rs[..n][0]);
      assert rs[1..][..n - 1] == rs[..n][1..];
      SetsAreDropped(n - 1, rs[1..]);
    }
  }

  lemma {:induction false} ErrorStopsDropping(n: nat, rs: seq<Result>, k: nat)
    requires k < n && k < |rs| && AllQuiet(rs[..k]) && rs[k].Error?
    ensures UserResults(n, rs) == rs[k..]
  {
    if k > 0 {
      assert Quiet(rs[..k][0]);
      assert rs[1..][..k - 1] == rs[..k][1..];
      ErrorStopsDropping(n - 1, rs[1..], k - 1);
    }
  }

  /** The connection just before a wrapped query of `n` SETs is answered. */
  ghost predicate Fresh(c: Conn, n: nat) {
    n > 0 && c.wrap == Begun(n, c.wrap.kind, c.wrap.resetPending)
  }

  /**
   * After `k <= n` successful SETs: success is set exactly at the n-th, and the
   * XID-reset test holds before the first result only.
   */
  lemma {:induction false} Countdown(c: Conn, n: nat, rs: seq<Result>, waitActive: bool)
    requires Fresh(c, n) && |rs| <= n && AllQuiet(rs)
    ensures var a := After(c, rs, waitActive);
      && a.wrap == c.wrap.(pending := n - |rs|, succeeded := |rs| == n,
                           resetPending := c.wrap.resetPending && |rs| == 0)
      && (ConsumingReset(a.wrap) <==> c.wrap.resetPending && |rs| == 0)
      && a == c.(wrap := a.wrap, resetConsumed := c.resetConsumed || (c.wrap.resetPending && |rs| > 0))
  {
    if rs != [] {
      Countdown(c, n, rs[..|rs| - 1], waitActive);
      assert Quiet(rs[|rs| - 1]);
    }
  }

  /** A wrapped query whose SETs all succeed: the client gets exactly the later results. */
  lemma WrappedQueryForwards(c: Conn, n: nat, rs: seq<Result>, waitActive: bool)
    requires Fresh(c, n) && n <= |rs| && AllQuiet(rs[..n])
    ensures Forwarded(c, rs, waitActive) == rs[n..]
    ensures After(c, rs[..n], waitActive).wrap.succeeded
    ensures forall k :: 0 <= k < n ==> !After(c, rs[..k], waitActive).wrap.succeeded
    ensures forall k :: 0 <= k <= n ==>
      (ConsumingReset(After(c, rs[..k], waitActive).wrap) <==> c.wrap.resetPending && k == 0)
  {
    FilterRefines(c, rs, waitActive);
    SetsAreDropped(n, rs);
    forall k | 0 <= k <= n
      ensures After(c, rs[..k], waitActive).wrap.succeeded <==> k == n
      ensures ConsumingReset(After(c, rs[..k], waitActive).wrap) <==> c.wrap.resetPending && k == 0
    {
      assert forall i :: 0 <= i < k ==> rs[..k][i] == rs[..n][i];
      Countdown(c, n, rs[..k], waitActive);
    }
  }

  /** Once nothing is pending, no later result is swallowed, and failure is final. */
  lemma {:induction false} FailureIsFinal(c: Conn, rs: seq<Result>, waitActive: bool)
    requires c.wrap.failed && !c.wrap.succeeded && c.wrap.pending == 0
    ensures var a := After(c, rs, waitActive); a.wrap.failed && !a.wrap.succeeded && a.wrap.pending == 0
  {
    if rs != [] {
      FailureIsFinal(c, rs[..|rs| - 1], waitActive);
    }
  }

  /** The error that revokes a success already recorded: a split wait's timeout outside a session wait. */
  predicate Revokes(kind: Kind, r: Result, waitActive: bool) {
    r.Error? && r.timeout && kind == TxnSplitWait && !waitActive
  }

  ghost predicate NoneRevokes(kind: Kind, rs: seq<Result>, waitActive: bool) {
    forall i :: 0 <= i < |rs| ==> !Revokes(kind, rs[i], waitActive)
  }

  lemma RevokeStep(c: Conn, r: Result, waitActive: bool)
    requires c.wrap.wasWrapped && c.wrap.pending == 0
    ensures var w := OneResult(c, r, waitActive).0.wrap;
      && w.wasWrapped && w.pending == 0 && w.kind == c.wrap.kind
      && w.succeeded == (c.wrap.succeeded && !Revokes(c.wrap.kind, r, waitActive))
      && w.failed == (c.wrap.failed || Revokes(c.wrap.kind, r, waitActive))
  {
  }

  lemma NoneRevokesSplit(kind: Kind, rs: seq<Result>, waitActive: bool)
    requires rs != []
    ensures var n := |rs| - 1;
      NoneRevokes(kind, rs, waitActive) <==> NoneRevokes(kind, rs[..n], waitActive) && !Revokes(kind, rs[n], waitActive)
  {
    var n := |rs| - 1;
    assert forall i :: 0 <= i < n ==> rs[..n][i] == rs[i];
  }

  /** With nothing pending, success survives the user's results exactly when none of them revokes it. */
  lemma {:induction false} SuccessSurvivesExactly(c: Conn, user: seq<Result>, waitActive: bool)
    requires c.wrap.wasWrapped && c.wrap.pending == 0 && c.wrap.succeeded
    ensures var w := After(c, user, waitActive).wrap;
      && w.wasWrapped && w.pending == 0 && w.kind == c.wrap.kind
      && (w.succeeded <==> NoneRevokes(c.wrap.kind, user, waitActive))
      && (w.failed <==> c.wrap.failed || !NoneRevokes(c.wrap.kind, user, waitActive))
  {
    if user != [] {
      var n := |user| - 1;
      SuccessSurvivesExactly(c, user[..n], waitActive);
      RevokeStep(After(c, user[..n], waitActive), user[n], waitActive);
      NoneRevokesSplit(c.wrap.kind, user, waitActive);
    }
  }

  /** So a wrapped query whose SETs all succeed ends as a success exactly when no later result revokes it. */
  lemma WrappedQuerySucceedsExactly(c: Conn, n: nat, rs: seq<Result>, waitActive: bool)
    requires Fresh(c, n) && n <= |rs| && AllQuiet(rs[..n])
    ensures After(c, rs, waitActive).wrap.succeeded <==> NoneRevokes(c.wrap.kind, rs[n..], waitActive)
  {
    assert rs == rs[..n] + rs[n..];
    AfterConcat(c, rs[..n], rs[n..], waitActive);
    Countdown(c, n, rs[..n], waitActive);
    SuccessSurvivesExactly(After(c, rs[..n], waitActive), rs[n..], waitActive);
  }

  /** The state once SET `k` has failed. */
  lemma SetFails(c: Conn, n: nat, rs: seq<Result>, k: nat, waitActive: bool)
    requires Fresh(c, n) && k < n && |rs| == k + 1 && AllQuiet(rs[..k]) && rs[k].Error?
    ensures var e := After(c, rs, waitActive);
      && e.wrap.failed && !e.wrap.succeeded && e.wrap.pending == 0 && e.dirty == c.dirty
      && e.reusable == (c.reusable && !(k == 0 && c.wrap.resetPending))
  {
    Countdown(c, n, rs[..k], waitActive);
  }

  lemma NeverSucceeds(c: Conn, n: nat, rs: seq<Result>, k: nat, waitActive: bool)
    requires Fresh(c, n) && k < n && k < |rs| && AllQuiet(rs[..k]) && rs[k].Error?
    ensures var a := After(c, rs, waitActive); a.wrap.failed && !a.wrap.succeeded && a.wrap.pending == 0
  {
    var head, tail := rs[..k + 1], rs[k + 1..];
    assert rs == head + tail && head[..k] == rs[..k];
    AfterConcat(c, head, tail, waitActive);
    SetFails(c, n, head, k, waitActive);
    FailureIsFinal(After(c, head, waitActive), tail, waitActive);
  }

  /** A wrapped query whose SET `k` fails: the client gets that error and all that follows. */
  lemma WrappedQueryFails(c: Conn, n: nat, rs: seq<Result>, k: nat, waitActive: bool)
    requires Fresh(c, n) && k < n && k < |rs| && AllQuiet(rs[..k]) && rs[k].Error?
    ensures Forwarded(c, rs, waitActive) == rs[k..]
    ensures forall j :: 0 <= j <= |rs| ==> !After(c, rs[..j], waitActive).wrap.succeeded
    ensures After(c, rs, waitActive).wrap.failed && After(c, rs, waitActive).wrap.pending == 0
    ensures k == 0 && c.wrap.resetPending ==> !After(c, rs[..1], waitActive).reusable
  {
    FilterRefines(c, rs, waitActive);
    ErrorStopsDropping(n, rs, k);
    forall j | 0 <= j <= |rs| ensures !After(c, rs[..j], waitActive).wrap.succeeded {
      if j <= k {
        assert forall i :: 0 <= i < j ==> rs[..j][i] == rs[..k][i];
        Countdown(c, n, rs[..j], waitActive);
      } else {
        assert rs[..j][..k] == rs[..k];
        NeverSucceeds(c, n, rs[..j], k, waitActive);
      }
    }
    assert rs[..k + 1][..k] == rs[..k];
    SetFails(c, n, rs[..k + 1], k, waitActive);
    NeverSucceeds(c, n, rs, k, waitActive);
  }

  lemma {:induction false} AfterConcat(c: Conn, a: seq<Result>, b: seq<Result>, waitActive: bool)
    ensures After(c, a + b, waitActive) == After(After(c, a, waitActive), b, waitActive)
  {
    if b == [] {
      assert a + b == a;
    } else {
      var front := b[..|b| - 1];
      assert (a + b)[..|a + b| - 1] == a + front;
      AfterConcat(c, a, front, waitActive);
    }
  }

  // ----- a wait in the extended protocol

  /** The wrap state after the completions of an extended wait's statements. */
  function ObservedAll(w: Wrap, oks: seq<bool>): Wrap {
    if oks == [] then w else Observed(ObservedAll(w, oks[..|oks| - 1]), oks[|oks| - 1])
  }

  /**
   * An extended wait counts as wrapped with no SET to drop. It has succeeded exactly when
   * one of its completions was a success, and the first completion takes the notices back
   * from the session; a completion that belongs to no extended wait changes nothing.
   */
  lemma {:induction false} ExtendedWaitExact(owner: NoticeOwner, oks: seq<bool>, other: Wrap)
    ensures var w := ObservedAll(ExtendedBegun(owner), oks);
      && w.wasWrapped && w.kind == ExtendedWait && !w.failed && w.total == w.pending == 0
      && (w.succeeded <==> exists i :: 0 <= i < |oks| && oks[i])
      && w.owner == if oks == [] then owner else QueryResult
    ensures other.kind != ExtendedWait ==> ObservedAll(other, oks) == other
  {
    if oks != [] {
      var n := |oks| - 1;
      ExtendedWaitExact(owner, oks[..n], other);
      if i :| 0 <= i < n && oks[..n][i] {
        assert oks[i];
      }
      if i :| 0 <= i < n && oks[i] {
        assert oks[..n][i];
      }
      assert oks[n] ==> exists i :: 0 <= i < |oks| && oks[i];
    }
  }

  // ----- the early return on release

  /** What every operation keeps; the notice owner is the field `active` does not look at. */
  ghost predicate Reachable(c: Conn) {
    && (c.wrap.owner == SessionQueue ==> c.wrap.kind == ExtendedWait)
    && (c.wrap.pending > 0 ==> c.wrap.wasWrapped)
    && c.wrap.pending <= c.wrap.total
  }

  lemma InactiveIsDefault(c: Conn)
    requires Reachable(c) && !DispatchActive(c.dispatch) && !WrapActive(c.wrap)
    ensures c.dispatch == IDLE_DISPATCH && c.wrap == IDLE_WRAP
  {
  }

  datatype Op =
    | Submit(extended: bool, stmts: nat, kind: Kind) | StartQuery | BeginExtended(owner: NoticeOwner)
    | Observe(ok: bool) | Fetch(r: Result, waitActive: bool) | Free(error: bool) | Release

  function Perform(c: Conn, op: Op): Conn {
    match op
    case Submit(extended, stmts, kind) => Dispatched(c, extended, stmts, kind)
    case StartQuery => Started(c)
    case BeginExtended(owner) => c.(wrap := ExtendedBegun(owner))
    case Observe(ok) => c.(wrap := Observed(c.wrap, ok))
    case Fetch(r, waitActive) => OneResult(c, r, waitActive).0
    case Free(error) => Freed(c, error)
    case Release => Released(c)
  }

  function PerformAll(c: Conn, ops: seq<Op>): Conn {
    if ops == [] then c else Perform(PerformAll(c, ops[..|ops| - 1]), ops[|ops| - 1])
  }

  lemma ResultKeeps(c: Conn, r: Result, waitActive: bool)
    requires Reachable(c)
    ensures Reachable(OneResult(c, r, waitActive).0)
  {
  }

  lemma SubmitKeeps(c: Conn, extended: bool, stmts: nat, kind: Kind)
    requires Reachable(c)
    ensures Reachable(Dispatched(c, extended, stmts, kind)) && Reachable(Started(c))
  {
  }

  lemma PerformKeeps(c: Conn, op: Op)
    requires Reachable(c)
    ensures Reachable(Perform(c, op))
  {
    match op
    case Submit(extended, stmts, kind) => SubmitKeeps(c, extended, stmts, kind);
    case StartQuery => SubmitKeeps(c, false, 0, NoWrapper);
    case Fetch(r, waitActive) => ResultKeeps(c, r, waitActive);
    case _ =>
  }

  /** From a new connection, in any order of operations, the guarded clear is a full clear. */
  lemma {:induction false} EarlyReturnIsSound(ops: seq<Op>)
    ensures var c := PerformAll(Conn(IDLE_DISPATCH, IDLE_WRAP, false, false, true), ops);
      Reachable(c) && Released(c) == Cleared(c)
  {
    var start := Conn(IDLE_DISPATCH, IDLE_WRAP, false, false, true);
    var c := PerformAll(start, ops);
    if ops != [] {
      EarlyReturnIsSound(ops[..|ops| - 1]);
      PerformKeeps(PerformAll(start, ops[..|ops| - 1]), ops[|ops| - 1]);
    }
    assert Reachable(c);
    if !DispatchActive(c.dispatch) && !WrapActive(c.wrap) {
      InactiveIsDefault(c);
    }
  }
}
