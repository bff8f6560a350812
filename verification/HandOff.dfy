/**
 * What the steps of the hand-off protocol achieve: a waiting worker gets the connection
 * that is returned, an abandoned one is passed on, and a connection that comes and goes
 * leaves the hostgroup as it was.
 */
module HandOff {
  import opened Common
  import opened PoolTypes
  import opened CapacityQueue
  import opened ReservationServer
  import opened ReservationProtocol
  import opened ReservationOffers
  import opened ReservationRuns

  // ----- operations of one pool

  /** An eligible take moves exactly that connection, with its key or without; any other changes nothing. */
  lemma TakeSlotExact(id: nat, s: Server, i: nat, keepKey: bool)
    requires ServerInv(id, s)
    ensures var eligible := s.status == Online && i < |s.free|
      && (s.free[i].key != NO_KEY || s.free[i].conn !in s.byConn);
      OnPool(s, TakeSlot(i, keepKey)) ==
      if eligible
      then s.(free := SwapRemove(s.free, i),
              used := s.used + [if keepKey then s.free[i] else Slot(s.free[i].conn, NO_KEY)])
      else s
  {
    if Takeable(s, i) {
      if s.free[i].key != NO_KEY {
        KeyedSlotIsUnreserved(id, s, i);
      }
      ConnSetMember(s.free, s.free[i].conn);
      assert s.owned + {s.free[i].conn} - {s.free[i].conn} == s.owned;
    }
  }

  /** Into USED, from the caller's hands. */
  lemma AddUsedExact(s: Server, c: Conn, key: MatchKey)
    ensures OnPool(s, AddUsed(c, key)) ==
      if c in s.owned && s.status == Online then s.(used := s.used + [Slot(c, key)], owned := s.owned - {c}) else s
  {
  }

  /** Out of USED, into the caller's hands. */
  lemma DropUsedExact(id: nat, s: Server, i: nat, c: Conn)
    requires ServerInv(id, s)
    ensures i < |s.used| ==>
      OnPool(s, DropUsed(s.used[i].conn)) == s.(used := SwapRemove(s.used, i), owned := s.owned + {s.used[i].conn})
    ensures c !in ConnSet(s.used) ==> OnPool(s, DropUsed(c)) == s
  {
    if i < |s.used| {
      FoundFirst(s.used, i);
    }
    ConnSetMember(s.used, c);
  }

  /** Out of FREE; a reserved connection leaves its worker the reason. */
  lemma DropFreeExact(id: nat, s: Server, i: nat, reason: EndReason)
    requires ServerInv(id, s) && i < |s.free| && IsRetirement(reason)
    ensures var n := OnPool(s, DropFree(i, reason));
      var c := s.free[i].conn;
      && n.free == SwapRemove(s.free, i) && n.owned == s.owned + {c} && n.used == s.used && n.status == s.status
      && (c !in s.byConn ==> n.reservations == s.reservations && n.retired == s.retired)
      && (c in s.byConn ==>
           var t := s.byConn[c];
           && n.reservations == s.reservations - {t}
           && n.retired == s.retired[t := Retired(s.reservations[t].worker, reason)])
  {
  }

  lemma {:induction false} FoundFirst(slots: seq<Slot>, i: nat)
    requires i < |slots| && forall j :: 0 <= j < i ==> slots[j].conn != slots[i].conn
    ensures FindSlot(slots, slots[i].conn) == Some(i)
    decreases i
  {
    if i > 0 {
      assert slots[0].conn != slots[i].conn;
      var rest := slots[1..];
      assert forall j :: 0 <= j < i - 1 ==> rest[j] == slots[j + 1];
      FoundFirst(rest, i - 1);
    }
  }

  /** Every worker that had a record or a reservation in `s` has a record in `n`. */
  ghost predicate Told(s: Server, n: Server, reason: EndReason) {
    && (forall t :: t in s.retired ==> t in n.retired && n.retired[t] == s.retired[t])
    && (forall t :: t in s.reservations ==> t in n.retired && n.retired[t] == Retired(s.reservations[t].worker, reason))
  }

  lemma ToldAfterFirst(s: Server, n: Server, reason: EndReason)
    requires s.free != [] && Reserved(s) && IsRetirement(reason) && Told(TakeFree(s, 0, reason), n, reason)
    ensures Told(s, n, reason)
  {
    var m := TakeFree(s, 0, reason);
    forall t | t in s.reservations
      ensures t in n.retired && n.retired[t] == Retired(s.reservations[t].worker, reason)
    {
      if t in m.reservations {
        assert m.reservations[t] == s.reservations[t];
      } else {
        assert t in m.retired;
      }
    }
  }

  /** Detaching hands out every FREE connection and leaves every waiting worker the reason. */
  lemma {:induction false} DetachExact(id: nat, s: Server, reason: EndReason)
    requires ServerInv(id, s) && IsRetirement(reason)
    ensures var n := DetachFree(s, reason);
      n.status == s.status && n.owned == s.owned + ConnSet(s.free) && Told(s, n, reason)
    decreases |s.free|
  {
    if s.free == [] {
      NothingReserved(s);
    } else {
      TakeFreeKeeps(id, s, 0, reason);
      ConnSetSwapRemove(s.free, 0);
      DetachExact(id, TakeFree(s, 0, reason), reason);
      ToldAfterFirst(s, DetachFree(TakeFree(s, 0, reason), reason), reason);
    }
  }

  /** A status change changes the status; going hard offline also detaches what is FREE. */
  lemma StatusExact(id: nat, s: Server, status: Status)
    requires ServerInv(id, s)
    ensures var n := OnPool(s, SetStatus(status));
      && n.status == status && n.used == s.used
      && (status != OfflineHard ==> n == s.(status := status))
      && (status == OfflineHard ==>
           n.free == [] && n.owned == s.owned + ConnSet(s.free) && n.reservations == map[] && Told(s, n, ServerOffline))
  {
    if status == OfflineHard {
      DetachFreeKeeps(id, s.(status := status), ServerOffline);
      DetachExact(id, s.(status := status), ServerOffline);
    }
  }

  // ----- steps of the protocol

  /** A worker that may wait gets the next token, and an accepted request is the newest in the queue. */
  lemma RegisterExact(st: State, w: nat, key: MatchKey, accepted: bool)
    requires LocalOf(st.local, w) == Idle && w != NO_WORKER && key != NO_KEY
    ensures var n := Apply(st, Register(w, key, accepted));
      && n.nextToken == st.nextToken + 1 && n.servers == st.servers && n.wakes == st.wakes && n.inbox == st.inbox
      && n.queue == (if accepted then st.queue + [Request(w, st.nextToken, key)] else st.queue)
      && LocalOf(n.local, w) == (if accepted then Waiting(st.nextToken) else Idle)
      && forall v :: v != w ==> LocalOf(n.local, v) == LocalOf(st.local, v)
  {
  }

  /** The state with `c` taken out of USED of server `id`. */
  function Detached(st: State, id: nat, c: Conn): State
    requires id in st.servers && FindSlot(st.servers[id].used, c).Some?
  {
    SetServer(st, id, TakeUsed(st.servers[id], FindSlot(st.servers[id].used, c).value))
  }

  /** A returned connection goes to the oldest eligible request for its own key, other than an excluded worker's. */
  lemma ReturnExact(st: State, id: nat, c: Conn, key: MatchKey, excluded: nat, env: Env, at: nat)
    requires id in st.servers && FindSlot(st.servers[id].used, c).Some? && st.servers[id].status == Online
    requires env.resolves && key != NO_KEY && IsFirstMatch(st.queue, at, key, excluded, env.eligible)
    ensures st.queue[at].key == key && st.queue[at].worker != excluded && st.queue[at].token in env.eligible
    ensures Apply(st, Return(id, c, key, excluded, env)) == Handed(Detached(st, id, c), id, c, at)
  {
    assert FirstMatch(st.queue, key, excluded, env.eligible) == Some(at);
  }

  /** With no such request it is FREE under its key. */
  lemma ReturnStores(st: State, id: nat, c: Conn, key: MatchKey, excluded: nat, env: Env)
    requires id in st.servers && FindSlot(st.servers[id].used, c).Some? && st.servers[id].status == Online
    requires env.resolves && key != NO_KEY ==> forall j :: 0 <= j < |st.queue| ==>
      !(st.queue[j].key == key && st.queue[j].worker != excluded && st.queue[j].token in env.eligible)
    ensures var mid := Detached(st, id, c);
      Apply(st, Return(id, c, key, excluded, env)) == SetServer(mid, id, PutFree(mid.servers[id], c, key))
  {
    var found := FirstMatch(st.queue, key, excluded, env.eligible);
    assert env.resolves && key != NO_KEY ==> found.None?;
  }

  /** A hand-over serves the oldest eligible request of another worker, and is refused when there is none. */
  lemma HandOverExact(st: State, id: nat, c: Conn, key: MatchKey, returning: nat, env: Env)
    requires id in st.servers && FindSlot(st.servers[id].used, c).Some? && st.servers[id].status == Online
    requires env.resolves && key != NO_KEY && returning != NO_WORKER
    ensures forall at: nat :: IsFirstMatch(st.queue, at, key, returning, env.eligible) ==>
      && st.queue[at].worker != returning && st.queue[at].key == key
      && Apply(st, HandOver(id, c, key, returning, env)) == Handed(Detached(st, id, c), id, c, at)
    ensures (forall j :: 0 <= j < |st.queue| ==>
      !(st.queue[j].key == key && st.queue[j].worker != returning && st.queue[j].token in env.eligible)) ==>
      Apply(st, HandOver(id, c, key, returning, env)) == st
  {
    var found := FirstMatch(st.queue, key, returning, env.eligible);
    forall at: nat | IsFirstMatch(st.queue, at, key, returning, env.eligible) ensures found == Some(at) {
    }
  }

  /** On a server that is not online a returned connection stays with the caller. */
  lemma OfflineReturnKeeps(st: State, id: nat, c: Conn, key: MatchKey, excluded: nat, env: Env)
    requires id in st.servers && FindSlot(st.servers[id].used, c).Some? && st.servers[id].status != Online
    ensures Apply(st, Return(id, c, key, excluded, env)) == Detached(st, id, c)
  {
  }

  /** Returns and hand-overs that are refused change nothing. */
  lemma RefusedReturns(st: State, id: nat, c: Conn, key: MatchKey, w: nat, env: Env)
    requires id in st.servers
    ensures c !in ConnSet(st.servers[id].used) ==> Apply(st, Return(id, c, key, w, env)) == st
    ensures c !in ConnSet(st.servers[id].used) || st.servers[id].status != Online || !env.resolves || key == NO_KEY
            || w == NO_WORKER ==>
      Apply(st, HandOver(id, c, key, w, env)) == st
  {
    ConnSetMember(st.servers[id].used, c);
  }

  /** So do steps of workers and wakes that are not in a position to make them. */
  lemma RefusedWorkerSteps(st: State, key: MatchKey, w: nat, env: Env)
    ensures LocalOf(st.local, w) != Idle || w == NO_WORKER || key == NO_KEY ==> Apply(st, Register(w, key, true)) == st
    ensures !LocalOf(st.local, w).Ready? ==> Apply(st, Collect(w)) == st
    ensures LocalOf(st.local, w) == Idle ==> Apply(st, GiveUp(w, env)) == st
  {
  }

  lemma RefusedWakes(st: State, wk: Wake, env: Env)
    ensures wk !in st.wakes ==> Apply(st, Deliver(wk)) == Apply(st, Reroute(wk, env)) == st
    ensures wk !in st.inbox ==> Apply(st, Process(wk, env)) == st
  {
  }

  lemma RefusedConns(st: State, c: Conn)
    ensures c in st.open ==> Apply(st, Open(c)) == st
    ensures c.parent in st.servers && c !in st.servers[c.parent].owned ==> Apply(st, Close(c)) == st
  {
  }

  // ----- from the request to the connection

  /** A wake for a queued request is new to everyone. */
  lemma QueuedHasNoWake(st: State, at: nat, id: nat)
    requires Inv(st) && at < |st.queue|
    ensures var wk := Wake(st.queue[at].worker, st.queue[at].token, id);
      wk !in st.wakes && wk !in st.inbox && LocalOf(st.local, wk.worker) == Waiting(wk.token)
  {
    var wk := Wake(st.queue[at].worker, st.queue[at].token, id);
    assert Queued(st.queue, wk.token);
    assert !Recorded(st.servers, wk);
    assert !Held(st.wakes, st.inbox, st.local, wk);
  }

  /** The wake reaches its worker: what a delivery and its processing leave. */
  lemma WakeReachesWorker(st: State, wk: Wake, env: Env)
    requires wk in st.wakes && wk !in st.inbox && wk.server in st.servers
    requires LocalOf(st.local, wk.worker) == Waiting(wk.token)
    ensures Apply(Apply(st, Deliver(wk)), Process(wk, env))
      == st.(wakes := st.wakes - {wk}, local := st.local[wk.worker := Ready(wk.token, wk.server)])
  {
    assert st.inbox + {wk} - {wk} == st.inbox;
  }

  /** The worker collects what is reserved for it. */
  lemma ReadyWorkerCollects(st: State, w: nat, token: nat, id: nat, s: Server, c: Conn, key: MatchKey)
    requires LocalOf(st.local, w) == Ready(token, id) && id in st.servers
    requires st.servers[id] == Reserve(s, c, w, token, key)
    requires ServerInv(id, s) && c in s.owned && token !in s.reservations && s.status == Online
    ensures Apply(st, Collect(w))
      == st.(servers := st.servers[id := PutUsed(s, c, key)], local := st.local[w := Idle])
  {
    var pending := FindRequest(st.queue, w, token).Some?;
    CollectReturnsReserved(id, s, c, w, token, key, pending);
    CollectTakes(st, w, token, id, PutUsed(s, c, key), Got(c));
  }

  lemma CollectTakes(st: State, w: nat, token: nat, id: nat, n: Server, res: TakeResult)
    requires LocalOf(st.local, w) == Ready(token, id) && id in st.servers && !res.Pending?
    requires TakeReservation(st.servers[id], w, token, FindRequest(st.queue, w, token).Some?) == (n, res)
    ensures Apply(st, Collect(w)) == st.(servers := st.servers[id := n], local := st.local[w := Idle])
  {
  }

  /** From the hand-over to USED under the key, with nothing left of the request. */
  lemma HandedIsCollected(st: State, at: nat, id: nat, c: Conn, env: Env)
    requires Inv(st) && at < |st.queue| && id in st.servers && st.servers[id].status == Online
    requires c in st.servers[id].owned
    ensures var r := st.queue[at];
      var wk := Wake(r.worker, r.token, id);
      Apply(Apply(Apply(Handed(st, id, c, at), Deliver(wk)), Process(wk, env)), Collect(r.worker))
      == st.(servers := st.servers[id := PutUsed(st.servers[id], c, r.key)], queue := RemoveAt(st.queue, at),
             local := st.local[r.worker := Idle])
  {
    var r, handed := st.queue[at], Handed(st, id, c, at);
    var wk := Wake(r.worker, r.token, id);
    QueuedHasNoWake(st, at, id);
    QueuedIsUnowed(st, id, at);
    HandedSteps(st, at, id, c, env);
  }

  lemma HandedSteps(st: State, at: nat, id: nat, c: Conn, env: Env)
    requires at < |st.queue| && id in st.servers && st.servers[id].status == Online
    requires ServerInv(id, st.servers[id]) && c in st.servers[id].owned
    requires st.queue[at].token !in st.servers[id].reservations
    requires var wk := Wake(st.queue[at].worker, st.queue[at].token, id);
      wk !in st.wakes && wk !in st.inbox && LocalOf(st.local, wk.worker) == Waiting(wk.token)
    ensures var r := st.queue[at];
      var wk := Wake(r.worker, r.token, id);
      Apply(Apply(Apply(Handed(st, id, c, at), Deliver(wk)), Process(wk, env)), Collect(r.worker))
      == st.(servers := st.servers[id := PutUsed(st.servers[id], c, r.key)], queue := RemoveAt(st.queue, at),
             local := st.local[r.worker := Idle])
  {
    var r, handed := st.queue[at], Handed(st, id, c, at);
    var wk := Wake(r.worker, r.token, id);
    WakeReachesWorker(handed, wk, env);
    var ready := Apply(Apply(handed, Deliver(wk)), Process(wk, env));
    ReadyWorkerCollects(ready, r.worker, r.token, id, st.servers[id], c, r.key);
    assert handed.wakes - {wk} == st.wakes;
    var used := PutUsed(st.servers[id], c, r.key);
    assert ready.servers[id := used] == st.servers[id := used];
    assert ready.local[r.worker := Idle] == st.local[r.worker := Idle];
  }

  /**
   * The whole hand-off: one session returns a connection, and the oldest eligible waiter for
   * its key is woken, processes its wake and collects it. Then the connection is USED under
   * the key, the worker waits for nothing, the request is gone, and no wake or reservation
   * is left over.
   */
  lemma ReturnedConnectionReachesWaiter(st: State, id: nat, c: Conn, key: MatchKey, excluded: nat, env: Env, at: nat)
    requires Inv(st) && id in st.servers && FindSlot(st.servers[id].used, c).Some? && st.servers[id].status == Online
    requires env.resolves && key != NO_KEY && IsFirstMatch(st.queue, at, key, excluded, env.eligible)
    ensures var r := st.queue[at];
      var wk := Wake(r.worker, r.token, id);
      var mid := Detached(st, id, c);
      Run(st, [Return(id, c, key, excluded, env), Deliver(wk), Process(wk, env), Collect(r.worker)])
      == mid.(servers := mid.servers[id := PutUsed(mid.servers[id], c, key)], queue := RemoveAt(st.queue, at),
              local := st.local[r.worker := Idle])
  {
    var r := st.queue[at];
    var wk := Wake(r.worker, r.token, id);
    TakeUsedQuiet(st, id, FindSlot(st.servers[id].used, c).value);
    ReturnExact(st, id, c, key, excluded, env, at);
    HandedIsCollected(Detached(st, id, c), at, id, c, env);
    RunFour(st, Return(id, c, key, excluded, env), Deliver(wk), Process(wk, env), Collect(r.worker));
  }

  lemma RunFour(st: State, a: Step, b: Step, c: Step, d: Step)
    ensures Run(st, [a, b, c, d]) == Apply(Apply(Apply(Apply(st, a), b), c), d)
  {
    assert [a, b, c, d] == [a, b, c] + [d] && [a, b, c] == [a, b] + [c] && [a, b] == [a] + [b] && [a] == [] + [a];
    RunAppend(st, [a, b, c], d);
    RunAppend(st, [a, b], c);
    RunAppend(st, [a], b);
    RunAppend(st, [], a);
  }

  // ----- an abandoned reservation

  /** Its connection is FREE with nobody left to have it, or a new wake carries it. */
  ghost predicate PassedOn(cargo: Option<Slot>, id: nat, n: State, env: Env) {
    || LeftFree(cargo, id, n.servers, n.queue, env)
    || exists wk :: wk in n.wakes && PassedTo(cargo, id, n.servers, wk)
  }

  lemma CancelledIsPassedOn(st: State, wk: Wake, start: State, env: Env) returns (n: State)
    requires Inv(st) && Held(st.wakes, st.inbox, st.local, wk)
    requires start.servers == st.servers && start.queue == st.queue
    requires start.nextToken == st.nextToken && start.open == st.open && LetGo(st, start, wk)
    ensures wk.server in st.servers && n == Cancel(start, wk.server, wk.worker, wk.token, env).0
    ensures n.local == start.local && PassedOn(Cargo(st.servers, wk), wk.server, n, env)
  {
    assert Recorded(st.servers, wk) && !Queued(st.queue, wk.token);
    CancelKeeps(st, start, wk, env);
    CancelPasses(start, wk, env);
    n := Cancel(start, wk.server, wk.worker, wk.token, env).0;
  }

  lemma GiveUpCancels(st: State, w: nat, token: nat, id: nat, env: Env)
    requires LocalOf(st.local, w) == Ready(token, id) && id in st.servers
    ensures Apply(st, GiveUp(w, env)) == Cancel(st.(local := st.local[w := Idle]), id, w, token, env).0
  {
  }

  lemma ProcessCancels(st: State, wk: Wake, env: Env)
    requires wk in st.inbox && wk.server in st.servers
    requires LocalOf(st.local, wk.worker) == Idle || LocalOf(st.local, wk.worker).token != wk.token
    ensures Apply(st, Process(wk, env)) == Cancel(st.(inbox := st.inbox - {wk}), wk.server, wk.worker, wk.token, env).0
  {
  }

  /** What a worker that gives up had reserved goes to the next waiter, or is FREE. */
  lemma AbandonedIsPassedOn(st: State, w: nat, token: nat, id: nat, env: Env) returns (n: State)
    requires Inv(st) && LocalOf(st.local, w) == Ready(token, id)
    ensures n == Apply(st, GiveUp(w, env)) && LocalOf(n.local, w) == Idle
    ensures PassedOn(Cargo(st.servers, Wake(w, token, id)), id, n, env)
  {
    var wk := Wake(w, token, id);
    assert Held(st.wakes, st.inbox, st.local, wk);
    ReadyLetsGo(st, w, token, id);
    n := CancelledIsPassedOn(st, wk, st.(local := st.local[w := Idle]), env);
    GiveUpCancels(st, w, token, id, env);
  }

  lemma ReadyLetsGo(st: State, w: nat, token: nat, id: nat)
    requires Inv(st) && LocalOf(st.local, w) == Ready(token, id)
    ensures LetGo(st, st.(local := st.local[w := Idle]), Wake(w, token, id))
  {
  }

  /** So does what a wake carries that finds its worker waiting for something else, or for nothing. */
  lemma ForeignWakeIsPassedOn(st: State, wk: Wake, env: Env) returns (n: State)
    requires Inv(st) && wk in st.inbox
    requires LocalOf(st.local, wk.worker) == Idle || LocalOf(st.local, wk.worker).token != wk.token
    ensures n == Apply(st, Process(wk, env)) && n.local == st.local
    ensures PassedOn(Cargo(st.servers, wk), wk.server, n, env)
  {
    assert Held(st.wakes, st.inbox, st.local, wk);
    InboxLetsGo(st, wk);
    n := CancelledIsPassedOn(st, wk, st.(inbox := st.inbox - {wk}), env);
    ProcessCancels(st, wk, env);
  }

  lemma InboxLetsGo(st: State, wk: Wake)
    requires Inv(st) && wk in st.inbox
    ensures LetGo(st, st.(inbox := st.inbox - {wk}), wk)
  {
  }

  /** A worker that is still queued just leaves the queue. */
  lemma GiveUpWithdraws(st: State, at: nat, env: Env)
    requires Inv(st) && at < |st.queue|
    ensures Apply(st, GiveUp(st.queue[at].worker, env))
      == st.(queue := RemoveAt(st.queue, at), local := st.local[st.queue[at].worker := Idle])
  {
    assert FindRequest(st.queue, st.queue[at].worker, st.queue[at].token) == Some(at);
  }

  // ----- the life of a connection

  /** Opened, stored, taken, dropped and closed, with nobody waiting: the hostgroup is as it was. */
  lemma ConnectionComesAndGoes(st: State, c: Conn, key: MatchKey, env: Env)
    requires Inv(st) && c !in st.open && c.parent in st.servers && st.servers[c.parent].status == Online
    requires key != NO_KEY && (env.resolves ==> NoWaiter(st.queue, key, env.eligible))
    ensures var id := c.parent;
      var stored := Apply(Apply(st, Open(c)), AddFree(id, c, key, env));
      var taken := Apply(stored, Pool(id, TakeSlot(|st.servers[id].free|, true)));
      && stored == st.(servers := st.servers[id := st.servers[id].(free := st.servers[id].free + [Slot(c, key)])],
                       open := st.open + {c})
      && taken == st.(servers := st.servers[id := st.servers[id].(used := st.servers[id].used + [Slot(c, key)])],
                      open := st.open + {c})
      && Apply(Apply(taken, Pool(id, DropUsed(c))), Close(c)) == st
  {
    NewConnectionIsNowhere(st, c);
    OpenedIsStored(st, c, key, env);
    StoredIsTaken(st, c, key);
    UsedIsClosed(st, c, key);
  }

  lemma NewConnectionIsNowhere(st: State, c: Conn)
    requires Inv(st) && c !in st.open && c.parent in st.servers
    ensures var s := st.servers[c.parent];
      && c !in s.owned && c !in s.byConn
      && (forall i :: 0 <= i < |s.free| ==> s.free[i].conn != c)
      && (forall i :: 0 <= i < |s.used| ==> s.used[i].conn != c)
  {
    var s := st.servers[c.parent];
    assert c !in All(s);
    ConnSetMember(s.free, c);
    ConnSetMember(s.used, c);
    if c in s.byConn {
      ReservedIsFree(s, c);
    }
  }

  lemma OpenedIsStored(st: State, c: Conn, key: MatchKey, env: Env)
    requires c !in st.open && c.parent in st.servers && st.servers[c.parent].status == Online
    requires c !in st.servers[c.parent].owned
    requires key != NO_KEY && (env.resolves ==> NoWaiter(st.queue, key, env.eligible))
    ensures var s := st.servers[c.parent];
      Apply(Apply(st, Open(c)), AddFree(c.parent, c, key, env))
      == st.(servers := st.servers[c.parent := s.(free := s.free + [Slot(c, key)])], open := st.open + {c})
  {
    var s := st.servers[c.parent];
    var withNew := Apply(st, Open(c));
    assert env.resolves ==> FirstMatch(st.queue, key, NO_WORKER, env.eligible).None?;
    assert s.owned + {c} - {c} == s.owned;
    assert withNew.servers[c.parent := PutFree(withNew.servers[c.parent], c, key)]
        == st.servers[c.parent := s.(free := s.free + [Slot(c, key)])];
  }

  lemma StoredIsTaken(st: State, c: Conn, key: MatchKey)
    requires c.parent in st.servers && st.servers[c.parent].status == Online && key != NO_KEY
    requires c !in st.servers[c.parent].owned && c !in st.servers[c.parent].byConn
    ensures var s := st.servers[c.parent];
      var stored := st.(servers := st.servers[c.parent := s.(free := s.free + [Slot(c, key)])], open := st.open + {c});
      Apply(stored, Pool(c.parent, TakeSlot(|s.free|, true)))
      == st.(servers := st.servers[c.parent := s.(used := s.used + [Slot(c, key)])], open := st.open + {c})
  {
    var s := st.servers[c.parent];
    var t := s.(free := s.free + [Slot(c, key)]);
    assert SwapRemove(t.free, |s.free|) == s.free && s.owned + {c} - {c} == s.owned;
    assert OnPool(t, TakeSlot(|s.free|, true)) == s.(used := s.used + [Slot(c, key)]);
    assert st.servers[c.parent := t][c.parent := s.(used := s.used + [Slot(c, key)])]
        == st.servers[c.parent := s.(used := s.used + [Slot(c, key)])];
  }

  lemma UsedIsClosed(st: State, c: Conn, key: MatchKey)
    requires c.parent in st.servers && c !in st.servers[c.parent].owned && c !in st.open
    requires forall i :: 0 <= i < |st.servers[c.parent].used| ==> st.servers[c.parent].used[i].conn != c
    ensures var s := st.servers[c.parent];
      var taken := st.(servers := st.servers[c.parent := s.(used := s.used + [Slot(c, key)])], open := st.open + {c});
      Apply(Apply(taken, Pool(c.parent, DropUsed(c))), Close(c)) == st
  {
    var s := st.servers[c.parent];
    var t := s.(used := s.used + [Slot(c, key)]);
    assert forall j :: 0 <= j < |s.used| ==> t.used[j].conn != c;
    FoundFirst(t.used, |s.used|);
    assert SwapRemove(t.used, |s.used|) == s.used;
    assert OnPool(t, DropUsed(c)) == s.(owned := s.owned + {c});
    assert s.owned + {c} - {c} == s.owned && st.open + {c} - {c} == st.open;
    assert st.servers[c.parent := s] == st.servers;
  }
}
