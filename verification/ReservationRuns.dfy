/** Whole runs of the hand-off protocol, and the wake routing loop. */
module ReservationRuns {
  import opened Common
  import opened PoolTypes
  import opened CapacityQueue
  import opened ReservationServer
  import opened ReservationProtocol
  import opened ReservationOffers

  /** Every way a connection, a token or a wake can move. */
  datatype Step =
    | Open(c: Conn)                                                          // a backend was created
    | Close(c: Conn)                                                         // a caller-owned backend is deleted
    | Pool(id: nat, op: PoolOp)                                              // within one server's pool
    | AddFree(id: nat, c: Conn, key: MatchKey, env: Env)                     // add_matching_connection
    | Return(id: nat, c: Conn, key: MatchKey, excluded: nat, env: Env)       // return_matching_connection
    | HandOver(id: nat, c: Conn, key: MatchKey, returning: nat, env: Env)    // reserve_matching_used_connection
    | Register(w: nat, key: MatchKey, accepted: bool)                        // register_reader_pool_capacity_request
    | Deliver(wk: Wake)                                                      // wake queued on its worker
    | Reroute(wk: Wake, env: Env)                                            // worker unreachable: cancel
    | Process(wk: Wake, env: Env)                                            // worker drains its inbox
    | GiveUp(w: nat, env: Env)                                               // polardb_cancel_reader_reservation
    | Collect(w: nat)                                                        // take_reader_pool_reservation

  function SetServer(st: State, id: nat, n: Server): State {
    st.(servers := st.servers[id := n])
  }

  function PoolStep(st: State, id: nat, op: PoolOp): State {
    if id in st.servers then SetServer(st, id, OnPool(st.servers[id], op)) else st
  }

  function AddFreeTo(st: State, id: nat, c: Conn, key: MatchKey, env: Env): State {
    if id in st.servers && c in st.servers[id].owned then Store(st, id, c, key, NO_WORKER, env).0 else st
  }

  function ReturnTo(st: State, id: nat, c: Conn, key: MatchKey, excluded: nat, env: Env): State {
    if id in st.servers && FindSlot(st.servers[id].used, c).Some? then
      var i := FindSlot(st.servers[id].used, c).value;
      Store(SetServer(st, id, TakeUsed(st.servers[id], i)), id, c, key, excluded, env).0
    else st
  }

  function HandOverTo(st: State, id: nat, c: Conn, key: MatchKey, returning: nat, env: Env): State {
    if id !in st.servers || FindSlot(st.servers[id].used, c).None? || key == NO_KEY || returning == NO_WORKER
       || st.servers[id].status != Online || !env.resolves
    then st
    else
      match FirstMatch(st.queue, key, returning, env.eligible)
      case None => st
      case Some(at) =>
        Handed(SetServer(st, id, TakeUsed(st.servers[id], FindSlot(st.servers[id].used, c).value)), id, c, at)
  }

  /** `next` is as good a state as `st`, and no spent token came back. */
  ghost predicate Keeps(st: State, next: State) {
    Inv(next) && NoRevival(st, next)
  }

  function Withdraw(st: State, w: nat, token: nat): State {
    match FindRequest(st.queue, w, token)
    case Some(at) => st.(queue := RemoveAt(st.queue, at), local := st.local[w := Idle])
    case None => st.(local := st.local[w := Idle])
  }

  function OpenConn(st: State, c: Conn): State {
    if c !in st.open && c.parent in st.servers then
      var s := st.servers[c.parent];
      SetServer(st, c.parent, s.(owned := s.owned + {c})).(open := st.open + {c})
    else st
  }

  function CloseConn(st: State, c: Conn): State {
    if c.parent in st.servers && c in st.servers[c.parent].owned then
      var s := st.servers[c.parent];
      SetServer(st, c.parent, s.(owned := s.owned - {c})).(open := st.open - {c})
    else st
  }

  function RegisterWorker(st: State, w: nat, key: MatchKey, accepted: bool): State {
    if LocalOf(st.local, w) != Idle || w == NO_WORKER || key == NO_KEY then st
    else if !accepted then st.(nextToken := st.nextToken + 1)
    else st.(nextToken := st.nextToken + 1, queue := st.queue + [Request(w, st.nextToken, key)],
             local := st.local[w := Waiting(st.nextToken)])
  }

  function DeliverWake(st: State, wk: Wake): State {
    if wk in st.wakes then st.(wakes := st.wakes - {wk}, inbox := st.inbox + {wk}) else st
  }

  function RerouteWake(st: State, wk: Wake, env: Env): State {
    if wk in st.wakes && wk.server in st.servers
    then Cancel(st.(wakes := st.wakes - {wk}), wk.server, wk.worker, wk.token, env).0 else st
  }

  /** The worker's current token makes the wake its own; any other wake is for an abandoned wait. */
  function ProcessWake(st: State, wk: Wake, env: Env): State {
    if wk !in st.inbox || wk.server !in st.servers then st
    else
      var taken := st.(inbox := st.inbox - {wk});
      if LocalOf(st.local, wk.worker) != Idle && LocalOf(st.local, wk.worker).token == wk.token
      then taken.(local := st.local[wk.worker := Ready(wk.token, wk.server)])
      else Cancel(taken, wk.server, wk.worker, wk.token, env).0
  }

  function GiveUpWait(st: State, w: nat, env: Env): State {
    match LocalOf(st.local, w)
    case Idle => st
    case Waiting(token) => Withdraw(st, w, token)
    case Ready(token, id) =>
      if id in st.servers then Cancel(st.(local := st.local[w := Idle]), id, w, token, env).0 else st
  }

  function CollectFor(st: State, w: nat): State {
    match LocalOf(st.local, w)
    case Ready(token, id) =>
      if id !in st.servers then st
      else
        var (n, res) := TakeReservation(st.servers[id], w, token, FindRequest(st.queue, w, token).Some?);
        if res.Pending? then st else SetServer(st, id, n).(local := st.local[w := Idle])
    case _ => st
  }

  function Apply(st: State, step: Step): State {
    match step
    case Open(c) => OpenConn(st, c)
    case Close(c) => CloseConn(st, c)
    case Register(w, key, accepted) => RegisterWorker(st, w, key, accepted)
    case Deliver(wk) => DeliverWake(st, wk)
    case Reroute(wk, env) => RerouteWake(st, wk, env)
    case Process(wk, env) => ProcessWake(st, wk, env)
    case GiveUp(w, env) => GiveUpWait(st, w, env)
    case Collect(w) => CollectFor(st, w)
    case Pool(id, op) => PoolStep(st, id, op)
    case AddFree(id, c, key, env) => AddFreeTo(st, id, c, key, env)
    case Return(id, c, key, excluded, env) => ReturnTo(st, id, c, key, excluded, env)
    case HandOver(id, c, key, returning, env) => HandOverTo(st, id, c, key, returning, env)
  }

  // ----- each step keeps the invariant

  lemma PoolStepKeeps(st: State, id: nat, op: PoolOp)
    requires Inv(st)
    ensures Keeps(st, PoolStep(st, id, op))
  {
    if id in st.servers {
      OnPoolKeeps(id, st.servers[id], op);
      QuietKeeps(st, id, OnPool(st.servers[id], op));
    } else {
      NothingKeeps(st);
    }
  }

  lemma TakeUsedQuiet(st: State, id: nat, i: nat)
    requires Inv(st) && id in st.servers && i < |st.servers[id].used|
    ensures Keeps(st, SetServer(st, id, TakeUsed(st.servers[id], i)))
  {
    TakeUsedKeeps(id, st.servers[id], i);
    QuietKeeps(st, id, TakeUsed(st.servers[id], i));
  }

  lemma AddFreeKeeps(st: State, id: nat, c: Conn, key: MatchKey, env: Env)
    requires Inv(st)
    ensures Keeps(st, AddFreeTo(st, id, c, key, env))
  {
    if id in st.servers && c in st.servers[id].owned {
      StoreKeeps(st, id, c, key, NO_WORKER, env);
    } else {
      NothingKeeps(st);
    }
  }

  lemma ReturnKeeps(st: State, id: nat, c: Conn, key: MatchKey, excluded: nat, env: Env)
    requires Inv(st)
    ensures Keeps(st, ReturnTo(st, id, c, key, excluded, env))
  {
    if id in st.servers && FindSlot(st.servers[id].used, c).Some? {
      var i := FindSlot(st.servers[id].used, c).value;
      var mid := SetServer(st, id, TakeUsed(st.servers[id], i));
      TakeUsedQuiet(st, id, i);
      StoreKeeps(mid, id, c, key, excluded, env);
      NoRevivalTrans(st, mid, Store(mid, id, c, key, excluded, env).0);
    } else {
      NothingKeeps(st);
    }
  }

  lemma HandOverKeeps(st: State, id: nat, c: Conn, key: MatchKey, returning: nat, env: Env)
    requires Inv(st)
    ensures Keeps(st, HandOverTo(st, id, c, key, returning, env))
  {
    if HandOverTo(st, id, c, key, returning, env) == st {
      NothingKeeps(st);
    } else {
      var i, at := FindSlot(st.servers[id].used, c).value, FirstMatch(st.queue, key, returning, env.eligible).value;
      var mid := SetServer(st, id, TakeUsed(st.servers[id], i));
      TakeUsedQuiet(st, id, i);
      HandToRequest(mid, id, c, at);
      NoRevivalTrans(st, mid, Handed(mid, id, c, at));
    }
  }

  /** A change that leaves records, holders and queue alone, whatever it does to connections. */
  lemma SameDutiesKeeps(st: State, next: State)
    requires Inv(st) && ConnsOk(next.servers, next.open)
    requires next.queue == st.queue && next.nextToken >= st.nextToken
    requires next.wakes == st.wakes && next.inbox == st.inbox && next.local == st.local
    requires forall wk :: Recorded(next.servers, wk) <==> Recorded(st.servers, wk)
    ensures Keeps(st, next)
  {
    forall wk ensures Held(next.wakes, next.inbox, next.local, wk) <==> Held(st.wakes, st.inbox, st.local, wk) {
    }
    SameTokens(st, next);
  }

  lemma OpenConns(st: State, c: Conn)
    requires ConnsOk(st.servers, st.open) && c !in st.open && c.parent in st.servers
    ensures ConnsOk(OpenConn(st, c).servers, OpenConn(st, c).open)
  {
    var s := st.servers[c.parent];
    var n := s.(owned := s.owned + {c});
    assert All(n) == All(s) + {c};
    assert Reserved(n);
  }

  lemma OpenKeeps(st: State, c: Conn)
    requires Inv(st)
    ensures Keeps(st, OpenConn(st, c))
  {
    if c !in st.open && c.parent in st.servers {
      OpenConns(st, c);
      SameDutiesKeeps(st, OpenConn(st, c));
    } else {
      NothingKeeps(st);
    }
  }

  lemma CloseConns(st: State, c: Conn)
    requires ConnsOk(st.servers, st.open) && c.parent in st.servers && c in st.servers[c.parent].owned
    ensures ConnsOk(CloseConn(st, c).servers, CloseConn(st, c).open)
  {
    var s := st.servers[c.parent];
    var n := s.(owned := s.owned - {c});
    assert All(n) == All(s) - {c};
    assert Reserved(n);
  }

  lemma CloseKeeps(st: State, c: Conn)
    requires Inv(st)
    ensures Keeps(st, CloseConn(st, c))
  {
    if c.parent in st.servers && c in st.servers[c.parent].owned {
      CloseConns(st, c);
      SameDutiesKeeps(st, CloseConn(st, c));
    } else {
      NothingKeeps(st);
    }
  }

  /** The queue with a new request under a fresh token. */
  lemma QueueGrows(st: State, r: Request)
    requires QueueOk(st.queue, st.local, st.nextToken) && LocalOf(st.local, r.worker) == Idle
    requires r.token == st.nextToken > 0 && r.key != NO_KEY
    ensures QueueOk(st.queue + [r], st.local[r.worker := Waiting(r.token)], st.nextToken + 1)
    ensures forall t :: Queued(st.queue + [r], t) <==> Queued(st.queue, t) || t == r.token
  {
    var q := st.queue + [r];
    forall t ensures Queued(q, t) <==> Queued(st.queue, t) || t == r.token {
      if Queued(st.queue, t) {
        var i :| 0 <= i < |st.queue| && st.queue[i].token == t;
        assert q[i].token == t;
      }
      assert q[|st.queue|].token == r.token;
    }
  }

  /** A worker that starts to wait holds no wake before or after. */
  lemma WaitingHoldsNothing(st: State, w: nat, token: nat)
    requires Accounted(st.servers, st.wakes, st.inbox, st.local) && LocalOf(st.local, w) == Idle
    ensures Accounted(st.servers, st.wakes, st.inbox, st.local[w := Waiting(token)])
  {
    var local := st.local[w := Waiting(token)];
    forall wk ensures Held(st.wakes, st.inbox, local, wk) <==> Held(st.wakes, st.inbox, st.local, wk) {
    }
  }

  lemma AcceptedRegistration(st: State, w: nat, key: MatchKey)
    requires Inv(st) && LocalOf(st.local, w) == Idle && key != NO_KEY
    ensures Keeps(st, st.(nextToken := st.nextToken + 1, queue := st.queue + [Request(w, st.nextToken, key)],
                          local := st.local[w := Waiting(st.nextToken)]))
  {
    QueueGrows(st, Request(w, st.nextToken, key));
    WaitingHoldsNothing(st, w, st.nextToken);
  }

  lemma RegisterKeeps(st: State, w: nat, key: MatchKey, accepted: bool)
    requires Inv(st)
    ensures Keeps(st, RegisterWorker(st, w, key, accepted))
  {
    NothingKeeps(st);
    if LocalOf(st.local, w) == Idle && w != NO_WORKER && key != NO_KEY {
      if accepted {
        AcceptedRegistration(st, w, key);
      } else {
        SameTokens(st, st.(nextToken := st.nextToken + 1));
      }
    }
  }

  lemma DeliverKeeps(st: State, wk: Wake)
    requires Inv(st)
    ensures Keeps(st, DeliverWake(st, wk))
  {
    var next := DeliverWake(st, wk);
    assert forall x :: Recorded(next.servers, x) <==> Recorded(st.servers, x);
    assert forall x :: Held(next.wakes, next.inbox, next.local, x) <==> Held(st.wakes, st.inbox, st.local, x);
    SameTokens(st, next);
  }

  lemma RerouteKeeps(st: State, wk: Wake, env: Env)
    requires Inv(st)
    ensures Keeps(st, RerouteWake(st, wk, env))
  {
    if wk in st.wakes {
      assert Held(st.wakes, st.inbox, st.local, wk);
      CancelKeeps(st, st.(wakes := st.wakes - {wk}), wk, env);
    }
  }

  /** An inbox wake for the worker's current token finds it still waiting, with no queued request. */
  lemma OwnWake(st: State, wk: Wake)
    requires Inv(st) && wk in st.inbox
    requires LocalOf(st.local, wk.worker) != Idle && LocalOf(st.local, wk.worker).token == wk.token
    ensures LocalOf(st.local, wk.worker) == Waiting(wk.token)
    ensures forall i :: 0 <= i < |st.queue| ==> st.queue[i].worker != wk.worker
  {
    assert Held(st.wakes, st.inbox, st.local, wk) && Recorded(st.servers, wk) && !Queued(st.queue, wk.token);
    var l := LocalOf(st.local, wk.worker);
    if l.Ready? {
      assert Held(st.wakes, st.inbox, st.local, Wake(wk.worker, l.token, l.server));
    }
    forall i | 0 <= i < |st.queue| ensures st.queue[i].worker != wk.worker {
      assert Queued(st.queue, st.queue[i].token);
    }
  }

  lemma AcceptWake(st: State, wk: Wake)
    requires Inv(st) && wk in st.inbox && LocalOf(st.local, wk.worker) == Waiting(wk.token)
    requires forall i :: 0 <= i < |st.queue| ==> st.queue[i].worker != wk.worker
    ensures Keeps(st, st.(inbox := st.inbox - {wk}, local := st.local[wk.worker := Ready(wk.token, wk.server)]))
  {
    var next := st.(inbox := st.inbox - {wk}, local := st.local[wk.worker := Ready(wk.token, wk.server)]);
    assert forall x :: Recorded(next.servers, x) <==> Recorded(st.servers, x);
    AcceptedAccounts(st, next, wk);
    SameTokens(st, next);
  }

  /** The wake moves from the inbox to the worker: the same wakes are held. */
  lemma AcceptedAccounts(st: State, next: State, wk: Wake)
    requires Accounted(st.servers, st.wakes, st.inbox, st.local) && wk in st.inbox
      && LocalOf(st.local, wk.worker) == Waiting(wk.token)
    requires next == st.(inbox := st.inbox - {wk}, local := st.local[wk.worker := Ready(wk.token, wk.server)])
    ensures Accounted(next.servers, next.wakes, next.inbox, next.local)
  {
    forall x ensures Recorded(next.servers, x) <==> Recorded(st.servers, x) {
    }
    forall x ensures Held(next.wakes, next.inbox, next.local, x) <==> Held(st.wakes, st.inbox, st.local, x) {
    }
  }

  lemma ProcessKeeps(st: State, wk: Wake, env: Env)
    requires Inv(st)
    ensures Keeps(st, ProcessWake(st, wk, env))
  {
    if wk in st.inbox {
      if LocalOf(st.local, wk.worker) != Idle && LocalOf(st.local, wk.worker).token == wk.token {
        OwnWake(st, wk);
        AcceptWake(st, wk);
      } else {
        assert Held(st.wakes, st.inbox, st.local, wk);
        CancelKeeps(st, st.(inbox := st.inbox - {wk}), wk, env);
      }
    }
  }

  lemma WithdrawWait(st: State, w: nat)
    requires Inv(st) && LocalOf(st.local, w).Waiting?
    ensures Keeps(st, Withdraw(st, w, LocalOf(st.local, w).token))
  {
    match FindRequest(st.queue, w, LocalOf(st.local, w).token) {
      case Some(at) => WithdrawKeeps(st, at, w);
      case None =>
        var next := st.(local := st.local[w := Idle]);
        assert forall x :: Recorded(next.servers, x) <==> Recorded(st.servers, x);
        assert forall x :: Held(next.wakes, next.inbox, next.local, x) <==> Held(st.wakes, st.inbox, st.local, x);
        SameTokens(st, next);
    }
  }

  lemma GiveUpKeeps(st: State, w: nat, env: Env)
    requires Inv(st)
    ensures Keeps(st, GiveUpWait(st, w, env))
  {
    match LocalOf(st.local, w)
    case Idle =>
    case Waiting(token) => WithdrawWait(st, w);
    case Ready(token, id) =>
      var wk := Wake(w, token, id);
      assert Held(st.wakes, st.inbox, st.local, wk);
      CancelKeeps(st, st.(local := st.local[w := Idle]), wk, env);
  }

  lemma ReadyCollects(st: State, w: nat, token: nat, id: nat)
    requires Inv(st) && LocalOf(st.local, w) == Ready(token, id)
    ensures id in st.servers && Held(st.wakes, st.inbox, st.local, Wake(w, token, id))
    ensures var n := TakeReservation(st.servers[id], w, token, false).0;
      && CollectFor(st, w) == SetServer(st, id, n).(local := st.local[w := Idle])
      && ServerInv(id, n) && All(n) == All(st.servers[id])
      && forall v, t :: Owes(n, v, t) <==> Owes(st.servers[id], v, t) && !(v == w && t == token)
  {
    var wk := Wake(w, token, id);
    assert Held(st.wakes, st.inbox, st.local, wk) && Recorded(st.servers, wk);
    assert !Queued(st.queue, token);
    assert FindRequest(st.queue, w, token).None?;
    TakeReservationKeeps(id, st.servers[id], w, token, false);
  }

  /** Only the collecting worker held the wake. */
  lemma CollectLetsGo(st: State, next: State, w: nat, token: nat, id: nat)
    requires Accounted(st.servers, st.wakes, st.inbox, st.local) && LocalOf(st.local, w) == Ready(token, id)
    requires next.wakes == st.wakes && next.inbox == st.inbox && next.local == st.local[w := Idle]
    ensures LetGo(st, next, Wake(w, token, id))
  {
  }

  lemma CollectKeeps(st: State, w: nat)
    requires Inv(st)
    ensures Keeps(st, CollectFor(st, w))
  {
    match LocalOf(st.local, w)
    case Ready(token, id) =>
      ReadyCollects(st, w, token, id);
      CollectLetsGo(st, CollectFor(st, w), w, token, id);
      SettleKeeps(st, CollectFor(st, w), Wake(w, token, id), TakeReservation(st.servers[id], w, token, false).0);
    case _ => NothingKeeps(st);
  }

  lemma NothingKeeps(st: State)
    requires Inv(st)
    ensures Keeps(st, st)
  {
  }

  /** Steps of the workers and their wakes. */
  predicate IsWorkerStep(step: Step) {
    step.Register? || step.Deliver? || step.Reroute? || step.Process? || step.GiveUp? || step.Collect?
  }

  lemma WorkerStepKeeps(st: State, step: Step)
    requires Inv(st) && IsWorkerStep(step)
    ensures Keeps(st, Apply(st, step))
  {
    match step
    case Register(w, key, accepted) => RegisterKeeps(st, w, key, accepted);
    case Deliver(wk) => DeliverKeeps(st, wk);
    case Reroute(wk, env) => RerouteKeeps(st, wk, env);
    case Process(wk, env) => ProcessKeeps(st, wk, env);
    case GiveUp(w, env) => GiveUpKeeps(st, w, env);
    case Collect(w) => CollectKeeps(st, w);
  }

  lemma ConnStepKeeps(st: State, step: Step)
    requires Inv(st) && !IsWorkerStep(step)
    ensures Keeps(st, Apply(st, step))
  {
    match step
    case Open(c) => OpenKeeps(st, c);
    case Close(c) => CloseKeeps(st, c);
    case Pool(id, op) => PoolStepKeeps(st, id, op);
    case AddFree(id, c, key, env) => AddFreeKeeps(st, id, c, key, env);
    case Return(id, c, key, excluded, env) => ReturnKeeps(st, id, c, key, excluded, env);
    case HandOver(id, c, key, returning, env) => HandOverKeeps(st, id, c, key, returning, env);
  }

  lemma ApplyKeeps(st: State, step: Step)
    requires Inv(st)
    ensures Keeps(st, Apply(st, step))
  {
    if IsWorkerStep(step) {
      WorkerStepKeeps(st, step);
    } else {
      ConnStepKeeps(st, step);
    }
  }

  // ----- whole runs

  function Run(st: State, steps: seq<Step>): State
    decreases |steps|
  {
    if steps == [] then st else Run(Apply(st, steps[0]), steps[1..])
  }

  /** A hostgroup before its first connection. */
  ghost predicate Fresh(st: State) {
    && st.queue == [] && st.nextToken == 1 && st.wakes == {} && st.inbox == {} && st.local == map[] && st.open == {}
    && forall id :: id in st.servers ==>
      var s := st.servers[id];
      s.free == [] && s.used == [] && s.owned == {} && s.reservations == map[] && s.byConn == map[]
        && s.retired == map[]
  }

  lemma FreshIsInv(st: State)
    requires Fresh(st)
    ensures Inv(st)
  {
    assert forall wk :: !Recorded(st.servers, wk) && !Held(st.wakes, st.inbox, st.local, wk);
  }

  /**
   * Over every run: each open connection is in exactly one of FREE, USED and
   * caller-owned of its own server; reserved connections are FREE and keyless; a token
   * is in at most one place; and every reservation or retirement record has exactly one
   * party that will still act on it.
   */
  lemma {:induction false} RunKeepsInvariant(st: State, steps: seq<Step>)
    requires Inv(st)
    ensures Inv(Run(st, steps)) && NoRevival(st, Run(st, steps))
    decreases |steps|
  {
    if steps != [] {
      var mid := Apply(st, steps[0]);
      ApplyKeeps(st, steps[0]);
      RunKeepsInvariant(mid, steps[1..]);
      NoRevivalTrans(st, mid, Run(mid, steps[1..]));
    }
  }

  /**
   * Once a worker was told that its reservation is gone, its token is spent: in every
   * later state, on every server and for every worker, collecting it finds nothing.
   */
  lemma RetiredOnceThenMissing(st: State, w: nat, token: nat, id: nat, later: seq<Step>, other: nat, asker: nat)
    requires Inv(st) && LocalOf(st.local, w) == Ready(token, id) && id in st.servers
    requires TakeReservation(st.servers[id], w, token, false).1.RetiredBecause?
    ensures var end := Run(Apply(st, Collect(w)), later);
      other in end.servers ==>
        TakeReservation(end.servers[other], asker, token, FindRequest(end.queue, asker, token).Some?).1 == Missing
  {
    var mid := Apply(st, Collect(w));
    CollectKeeps(st, w);
    CollectSpends(st, w, token, id);
    RunKeepsInvariant(mid, later);
    var end := Run(mid, later);
    if other in end.servers {
      SpentIsMissing(end, token, other, asker);
    }
  }

  lemma SpentIsMissing(st: State, token: nat, id: nat, asker: nat)
    requires Inv(st) && id in st.servers && !Live(st.servers, st.queue, token)
    ensures TakeReservation(st.servers[id], asker, token, FindRequest(st.queue, asker, token).Some?).1 == Missing
  {
    assert !Recorded(st.servers, Wake(asker, token, id));
    assert !Queued(st.queue, token);
    TakeReservationKeeps(id, st.servers[id], asker, token, false);
  }

  /** Collecting ends a token whatever the outcome. */
  lemma CollectSpends(st: State, w: nat, token: nat, id: nat)
    requires Inv(st) && LocalOf(st.local, w) == Ready(token, id) && id in st.servers
    ensures token < st.nextToken && !Live(Apply(st, Collect(w)).servers, Apply(st, Collect(w)).queue, token)
  {
    var wk := Wake(w, token, id);
    var next := Apply(st, Collect(w));
    ReadyCollects(st, w, token, id);
    assert Recorded(st.servers, wk) && next.queue == st.queue;
    forall x: Wake | x.token == token ensures !Recorded(next.servers, x) {
      if Recorded(st.servers, x) {
        assert x == wk;
      }
    }
  }

  // ----- wake routing

  /** What one hop of the routing loop meets: is the worker reachable, and who is eligible next. */
  datatype Hop = Hop(reachable: bool, env: Env)

  /** One hop: the wake is delivered, or its reservation is cancelled and may wake another worker. */
  function OneHop(st: State, wk: Wake, hop: Hop): (State, Option<Wake>)
    requires wk.server in st.servers
  {
    if hop.reachable then (st.(wakes := st.wakes - {wk}, inbox := st.inbox + {wk}), None)
    else Cancel(st.(wakes := st.wakes - {wk}), wk.server, wk.worker, wk.token, hop.env)
  }

  lemma HopKeeps(st: State, wk: Wake, hop: Hop)
    requires Inv(st) && wk in st.wakes
    ensures wk.server in st.servers
    ensures var (next, again) := OneHop(st, wk, hop);
      && Inv(next) && NoRevival(st, next) && next.open == st.open && next.local == st.local
      && next.inbox == st.inbox + (if hop.reachable then {wk} else {})
      && (hop.reachable ==> again.None? && wk !in st.inbox && Recorded(next.servers, wk) && |next.queue| == |st.queue|)
      && (again.None? ==> next.wakes == st.wakes - {wk} && |next.queue| == |st.queue|)
      && (again.Some? ==> |next.queue| == |st.queue| - 1 && again.value !in st.wakes - {wk}
                          && next.wakes == st.wakes - {wk} + {again.value})
  {
    assert Held(st.wakes, st.inbox, st.local, wk) && Recorded(st.servers, wk);
    if hop.reachable {
      DeliverKeeps(st, wk);
    } else {
      CancelKeeps(st, st.(wakes := st.wakes - {wk}), wk, hop.env);
    }
  }

  /** Some run leads from `a` to `b`. */
  ghost predicate Reaches(a: State, b: State) {
    exists steps :: Run(a, steps) == b
  }

  lemma {:induction false} RunAppend(st: State, steps: seq<Step>, step: Step)
    ensures Run(st, steps + [step]) == Apply(Run(st, steps), step)
    decreases |steps|
  {
    if steps == [] {
      assert [step][1..] == [] && steps + [step] == [step];
    } else {
      assert (steps + [step])[0] == steps[0] && (steps + [step])[1..] == steps[1..] + [step];
      RunAppend(Apply(st, steps[0]), steps[1..], step);
    }
  }

  lemma ReachesStep(a: State, b: State, step: Step)
    requires Reaches(a, b)
    ensures Reaches(a, Apply(b, step))
  {
    var steps :| Run(a, steps) == b;
    RunAppend(a, steps, step);
  }

  lemma ReachesKeeps(a: State, b: State)
    requires Inv(a) && Reaches(a, b)
    ensures Keeps(a, b)
  {
    var steps :| Run(a, steps) == b;
    RunKeepsInvariant(a, steps);
  }

  /** Routing is a run of the protocol that opens nothing and moves no worker. */
  ghost predicate StateSound(st0: State, st: State) {
    Reaches(st0, st) && st.open == st0.open && st.local == st0.local
  }

  /** Exactly the delivered wake is new in the inbox, and it has its record. */
  ghost predicate InboxExact(st0: State, wk0: Wake, st: State, delivered: Option<Wake>, n: nat) {
    && st.inbox == st0.inbox + (if delivered.Some? then {delivered.value} else {})
    && (delivered.Some? ==> delivered.value !in st0.inbox && Recorded(st.servers, delivered.value))
    && (n == 1 && delivered.Some? ==> delivered.value == wk0)
  }

  /** Of the chain exactly the wake in hand is still to be delivered. */
  ghost predicate WakesExact(was: set<Wake>, wk0: Wake, wakes: set<Wake>, wake: Option<Wake>, delivered: Option<Wake>) {
    if wake.None? then wakes == was - {wk0}
    else delivered.None? && wake.value !in was - {wk0} && wakes == was - {wk0} + {wake.value}
  }

  /** Every hop but a delivering one has used up a queued request. */
  ghost predicate HopsBounded(was: nat, wk0: Wake, queued: nat, wake: Option<Wake>, n: nat) {
    queued + n <= was + (if wake.None? then 1 else 0) && (n == 0 && wake.Some? ==> wake.value == wk0)
  }

  /** What is known after `n` hops, with `wake` still to be delivered. */
  ghost predicate Routing(st0: State, wk0: Wake, st: State, wake: Option<Wake>, delivered: Option<Wake>, n: nat) {
    && StateSound(st0, st)
    && InboxExact(st0, wk0, st, delivered, n)
    && WakesExact(st0.wakes, wk0, st.wakes, wake, delivered)
    && HopsBounded(|st0.queue|, wk0, |st.queue|, wake, n)
  }

  lemma RoutingStarts(st0: State, wk0: Wake)
    requires Inv(st0) && wk0 in st0.wakes
    ensures Routing(st0, wk0, st0, Some(wk0), None, 0)
  {
    assert Run(st0, []) == st0;
    assert st0.wakes == st0.wakes - {wk0} + {wk0} && st0.inbox == st0.inbox + {};
  }

  /** A hop is one step of the protocol. */
  lemma HopIsStep(st: State, wk: Wake, hop: Hop)
    requires wk in st.wakes && wk.server in st.servers
    ensures OneHop(st, wk, hop).0 == Apply(st, if hop.reachable then Deliver(wk) else Reroute(wk, hop.env))
  {
  }

  lemma RoutingStep(st0: State, wk0: Wake, st: State, wk: Wake, n: nat, hop: Hop)
    requires Inv(st0) && Routing(st0, wk0, st, Some(wk), None, n)
    ensures Inv(st) && wk in st.wakes && wk.server in st.servers
    ensures var (next, again) := OneHop(st, wk, hop);
      && Routing(st0, wk0, next, again, if hop.reachable then Some(wk) else None, n + 1)
      && (hop.reachable ==> again.None?)
  {
    ReachesKeeps(st0, st);
    HopKeeps(st, wk, hop);
    HopIsStep(st, wk, hop);
    ReachesStep(st0, st, if hop.reachable then Deliver(wk) else Reroute(wk, hop.env));
    var (next, again) := OneHop(st, wk, hop);
    RoutingFollows(st0, wk0, st, wk, n, hop, next, again);
  }

  /** What one hop is known to do is enough for every promise. */
  lemma RoutingFollows(st0: State, wk0: Wake, st: State, wk: Wake, n: nat, hop: Hop, next: State, again: Option<Wake>)
    requires InboxExact(st0, wk0, st, None, n) && WakesExact(st0.wakes, wk0, st.wakes, Some(wk), None)
    requires HopsBounded(|st0.queue|, wk0, |st.queue|, Some(wk), n)
    requires StateSound(st0, next)
    requires next.inbox == st.inbox + (if hop.reachable then {wk} else {})
    requires hop.reachable ==> again.None? && wk !in st.inbox && Recorded(next.servers, wk)
    requires |next.queue| == |st.queue| - (if again.Some? then 1 else 0)
    requires again.None? ==> next.wakes == st.wakes - {wk}
    requires again.Some? ==> again.value !in st.wakes - {wk} && next.wakes == st.wakes - {wk} + {again.value}
    ensures Routing(st0, wk0, next, again, if hop.reachable then Some(wk) else None, n + 1)
  {
    assert st.wakes - {wk} == st0.wakes - {wk0};
  }

  /** The first `n` hops meet no reachable worker. */
  ghost predicate NoneReachable(hops: seq<Hop>, n: nat)
    requires n <= |hops|
  {
    n == 0 || (!hops[n - 1].reachable && NoneReachable(hops, n - 1))
  }

  /** An undeliverable hop passes the connection on, or finds nobody to give it to. */
  lemma HopPasses(cargo: Option<Slot>, id: nat, st: State, wk: Wake, env: Env)
    requires Inv(st) && wk in st.wakes && wk.server in st.servers && PassedTo(cargo, id, st.servers, wk)
    ensures var (next, again) := OneHop(st, wk, Hop(false, env));
      && (again.Some? ==> PassedTo(cargo, id, next.servers, again.value))
      && (again.None? ==> LeftFree(cargo, id, next.servers, next.queue, env))
  {
    assert Held(st.wakes, st.inbox, st.local, wk) && Recorded(st.servers, wk) && !Queued(st.queue, wk.token);
    CancelPasses(st.(wakes := st.wakes - {wk}), wk, env);
  }

  /** Where the cargo of a chain is: with the wake in hand, with the delivered one, or FREE. */
  ghost predicate CargoAt(cargo: Option<Slot>, id: nat, servers: map<nat, Server>, queue: seq<Request>,
                          wake: Option<Wake>, delivered: Option<Wake>, env: Env)
  {
    if wake.Some? then PassedTo(cargo, id, servers, wake.value)
    else if delivered.Some? then PassedTo(cargo, id, servers, delivered.value)
    else LeftFree(cargo, id, servers, queue, env)
  }

  /** The hops so far: only the last one can have been the reachable one. */
  ghost predicate Hopped(hops: seq<Hop>, wake: Option<Wake>, delivered: Option<Wake>, n: nat) {
    && n <= |hops|
    && if wake.Some? then delivered.None? && NoneReachable(hops, n)
       else n > 0 && NoneReachable(hops, n - 1) && (delivered.Some? <==> hops[n - 1].reachable)
  }

  /** One turn of the routing loop. */
  method RouteOnce(ghost st0: State, ghost wk0: Wake, st: State, wk: Wake, n: nat, hops: seq<Hop>,
                   ghost cargo: Option<Slot>, ghost env: Env)
    returns (next: State, again: Option<Wake>, delivered: Option<Wake>)
    requires Inv(st0) && |hops| > |st0.queue|
    requires Routing(st0, wk0, st, Some(wk), None, n) && Hopped(hops, Some(wk), None, n)
    requires CargoAt(cargo, wk0.server, st.servers, st.queue, Some(wk), None, env)
    ensures n < |hops| && Hopped(hops, again, delivered, n + 1)
    ensures Routing(st0, wk0, next, again, delivered, n + 1)
    ensures CargoAt(cargo, wk0.server, next.servers, next.queue, again, delivered, hops[n].env)
  {
    var hop := hops[n];
    RoutingStep(st0, wk0, st, wk, n, hop);
    if !hop.reachable {
      HopPasses(cargo, wk0.server, st, wk, hop.env);
    }
    next, again := OneHop(st, wk, hop).0, OneHop(st, wk, hop).1;
    delivered := if hop.reachable then Some(wk) else None;
  }

  /**
   * `polardb_route_reader_reservation_wake`. Each undeliverable hop cancels one
   * reservation and hands its connection to the next waiter, so the loop ends after at
   * most one hop per queued request, and one more answer than that is all it can ask
   * for. It delivers at the first reachable worker, who then has the connection reserved
   * under its key; it ends undelivered only when no eligible waiter for that key is left,
   * and then the connection is FREE under it.
   */
  method RouteWake(st0: State, wk0: Wake, hops: seq<Hop>) returns (st: State, delivered: Option<Wake>, n: nat)
    requires Inv(st0) && wk0 in st0.wakes && |hops| > |st0.queue|
    ensures Routing(st0, wk0, st, None, delivered, n) && Hopped(hops, None, delivered, n)
    ensures CargoAt(Cargo(st0.servers, wk0), wk0.server, st.servers, st.queue, None, delivered, hops[n - 1].env)
  {
    st, delivered, n := st0, None, 0;
    var wake := Some(wk0);
    ghost var cargo, env := Cargo(st0.servers, wk0), hops[0].env;
    RoutingStarts(st0, wk0);
    while wake.Some?
      invariant Routing(st0, wk0, st, wake, delivered, n) && Hopped(hops, wake, delivered, n)
      invariant CargoAt(cargo, wk0.server, st.servers, st.queue, wake, delivered, env)
      invariant n > 0 ==> env == hops[n - 1].env
      decreases |hops| - n
    {
      st, wake, delivered := RouteOnce(st0, wk0, st, wake.value, n, hops, cargo, env);
      env := hops[n].env;
      n := n + 1;
    }
  }
}
