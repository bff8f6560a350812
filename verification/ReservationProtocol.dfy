/**
 * The hand-off protocol of one hostgroup: servers that return capacity, the queue of
 * waiting workers, the wake records in flight, and what each worker believes. Every
 * step is one section under a pool mutex, the request mutex or a worker's own thread.
 */
module ReservationProtocol {
  import opened Common
  import opened PoolTypes
  import opened CapacityQueue
  import opened ReservationServer

  datatype Wake = Wake(worker: nat, token: nat, server: nat)

  /** A worker's own reservation: none, queued without a server, or told which server. */
  datatype Local = Idle | Waiting(token: nat) | Ready(token: nat, server: nat)

  /**
   * `wakes` are populated records still in a producer's hands, `inbox` those queued on
   * their worker. `open` are the connections opened and not yet deleted.
   */
  datatype State = State(
    servers: map<nat, Server>,
    queue: seq<Request>,
    nextToken: nat,
    wakes: set<Wake>,
    inbox: set<Wake>,
    local: map<nat, Local>,
    open: set<Conn>)

  /** What the topology lookup and the lag policy answer at one selection. */
  datatype Env = Env(resolves: bool, eligible: set<nat>)

  function LocalOf(local: map<nat, Local>, worker: nat): Local {
    if worker in local then local[worker] else Idle
  }

  // ----- the invariant

  /** Somebody will act on this wake: its producer, its worker's inbox, or the worker itself. */
  ghost predicate Held(wakes: set<Wake>, inbox: set<Wake>, local: map<nat, Local>, wk: Wake) {
    wk in wakes || wk in inbox || LocalOf(local, wk.worker) == Ready(wk.token, wk.server)
  }

  ghost predicate Recorded(servers: map<nat, Server>, wk: Wake) {
    wk.server in servers && Owes(servers[wk.server], wk.worker, wk.token)
  }

  ghost predicate Queued(queue: seq<Request>, token: nat) {
    exists i :: 0 <= i < |queue| && queue[i].token == token
  }

  /** A token that some component still remembers. */
  ghost predicate Live(servers: map<nat, Server>, queue: seq<Request>, token: nat) {
    Queued(queue, token) || exists wk :: Recorded(servers, wk) && wk.token == token
  }

  ghost predicate QueueOk(queue: seq<Request>, local: map<nat, Local>, nextToken: nat) {
    && Distinct(queue)
    && forall i :: 0 <= i < |queue| ==>
      && 0 < queue[i].token < nextToken && queue[i].key != NO_KEY
      && LocalOf(local, queue[i].worker) == Waiting(queue[i].token)
  }

  /** Every record has a holder and every holder a record: no wake is lost, none is stale. */
  ghost predicate Accounted(servers: map<nat, Server>, wakes: set<Wake>, inbox: set<Wake>, local: map<nat, Local>) {
    && (forall wk :: Held(wakes, inbox, local, wk) <==> Recorded(servers, wk))
    && wakes !! inbox
    && (forall wk :: wk in wakes + inbox ==> LocalOf(local, wk.worker) != Ready(wk.token, wk.server))
  }

  /** A token is queued, or recorded once on one server, but never both. */
  ghost predicate TokensOk(servers: map<nat, Server>, queue: seq<Request>, nextToken: nat) {
    && (forall wk :: Recorded(servers, wk) ==> 0 < wk.token < nextToken && !Queued(queue, wk.token))
    && (forall a, b :: Recorded(servers, a) && Recorded(servers, b) && a.token == b.token ==> a == b)
  }

  /** Every open connection is in exactly one place of its parent, and nothing else is anywhere. */
  ghost predicate ConnsOk(servers: map<nat, Server>, open: set<Conn>) {
    && (forall id :: id in servers ==> ServerInv(id, servers[id]))
    && (forall c :: c in open <==> c.parent in servers && c in All(servers[c.parent]))
  }

  ghost predicate Inv(st: State) {
    && st.nextToken > 0 && QueueOk(st.queue, st.local, st.nextToken)
    && Accounted(st.servers, st.wakes, st.inbox, st.local)
    && TokensOk(st.servers, st.queue, st.nextToken) && ConnsOk(st.servers, st.open)
  }

  /** Nothing but registration brings a token to life. */
  ghost predicate NoRevival(st: State, next: State) {
    && st.nextToken <= next.nextToken
    && forall t: nat :: t < st.nextToken && Live(next.servers, next.queue, t) ==> Live(st.servers, st.queue, t)
  }

  // ----- moving capacity

  /** `store_matching_free_connection_unlocked`; None when nothing was stored. */
  function Store(st: State, id: nat, c: Conn, key: MatchKey, excluded: nat, env: Env): (State, Option<Wake>)
    requires id in st.servers
  {
    var s := st.servers[id];
    if s.status != Online then (st, None)
    else
      match if env.resolves && key != NO_KEY then FirstMatch(st.queue, key, excluded, env.eligible) else None
      case None => (st.(servers := st.servers[id := PutFree(s, c, key)]), None)
      case Some(at) =>
        (Handed(st, id, c, at), Some(Wake(st.queue[at].worker, st.queue[at].token, id)))
  }

  function FindRequest(q: seq<Request>, worker: nat, token: nat): (at: Option<nat>)
    ensures at.Some? ==> at.value < |q| && q[at.value].worker == worker && q[at.value].token == token
    ensures at.None? <==> forall j :: 0 <= j < |q| ==> !(q[j].worker == worker && q[j].token == token)
  {
    if q == [] then None
    else if q[0].worker == worker && q[0].token == token then Some(0)
    else match FindRequest(q[1..], worker, token)
      case None => None
      case Some(i) => Some(i + 1)
  }

  /** `cancel_reader_pool_reservation` on server `id`, with the wake it may produce. */
  function Cancel(st: State, id: nat, worker: nat, token: nat, env: Env): (State, Option<Wake>)
    requires id in st.servers
  {
    match FindRequest(st.queue, worker, token)
    case Some(at) => (st.(queue := RemoveAt(st.queue, at)), None)
    case None =>
      var (n, back) := CancelRecord(st.servers[id], worker, token);
      var freed := st.(servers := st.servers[id := n]);
      match back
      case None => (freed, None)
      case Some(slot) => GiveBack(freed, id, slot, env)
  }

  /** A connection freed by a cancellation: offered to any waiter while online, else just stored. */
  function GiveBack(st: State, id: nat, slot: Slot, env: Env): (State, Option<Wake>)
    requires id in st.servers
  {
    if st.servers[id].status == Online then Store(st, id, slot.conn, slot.key, NO_WORKER, env)
    else (st.(servers := st.servers[id := PutFree(st.servers[id], slot.conn, slot.key)]), None)
  }

  // ----- lemmas about one change

  /** A change of one server that owes the same answers and keeps the same connections. */
  lemma QuietKeeps(st: State, id: nat, n: Server)
    requires Inv(st) && id in st.servers && ServerInv(id, n) && All(n) == All(st.servers[id])
    requires forall w, t :: Owes(n, w, t) <==> Owes(st.servers[id], w, t)
    ensures var next := st.(servers := st.servers[id := n]); Inv(next) && NoRevival(st, next)
  {
    var next := st.(servers := st.servers[id := n]);
    forall wk ensures Recorded(next.servers, wk) <==> Recorded(st.servers, wk) {
    }
    forall wk ensures Held(next.wakes, next.inbox, next.local, wk) <==> Held(st.wakes, st.inbox, st.local, wk) {
    }
    SameTokens(st, next);
  }

  /** Same records and same queue: the token rules carry over. */
  lemma SameTokens(st: State, next: State)
    requires TokensOk(st.servers, st.queue, st.nextToken) && next.queue == st.queue && st.nextToken <= next.nextToken
    requires forall wk :: Recorded(next.servers, wk) ==> Recorded(st.servers, wk)
    ensures TokensOk(next.servers, next.queue, next.nextToken) && NoRevival(st, next)
  {
    forall t ensures Queued(next.queue, t) <==> Queued(st.queue, t) {
    }
  }

  /** Whoever held `wk` in `st` no longer does in `next`. */
  ghost predicate LetGo(st: State, next: State, wk: Wake) {
    && next.wakes == st.wakes - {wk} && next.inbox == st.inbox - {wk}
    && (forall w :: w != wk.worker ==> LocalOf(next.local, w) == LocalOf(st.local, w))
    && LocalOf(next.local, wk.worker) ==
       if LocalOf(st.local, wk.worker) == Ready(wk.token, wk.server) then Idle else LocalOf(st.local, wk.worker)
  }

  /** Settling one record together with its holder, whoever that was. */
  lemma SettleKeeps(st: State, next: State, wk: Wake, n: Server)
    requires Inv(st) && Held(st.wakes, st.inbox, st.local, wk)
    requires ServerInv(wk.server, n) && wk.server in st.servers && All(n) == All(st.servers[wk.server])
    requires forall w, t :: Owes(n, w, t) <==>
      Owes(st.servers[wk.server], w, t) && !(w == wk.worker && t == wk.token)
    requires next.servers == st.servers[wk.server := n] && next.queue == st.queue
    requires next.nextToken == st.nextToken && next.open == st.open
    requires LetGo(st, next, wk)
    ensures Inv(next) && NoRevival(st, next)
  {
    forall x ensures Recorded(next.servers, x) <==> Recorded(st.servers, x) && x != wk {
    }
    SettledAccounts(st, next, wk);
    SameTokens(st, next);
    ConnsReplace(st, next, wk.server, n);
    SettledQueue(st, next, wk);
  }

  /** A waiting worker is not the one whose record was settled, so it waits on. */
  lemma SettledQueue(st: State, next: State, wk: Wake)
    requires QueueOk(st.queue, st.local, st.nextToken) && next.queue == st.queue && next.nextToken == st.nextToken
      && LetGo(st, next, wk)
    ensures QueueOk(next.queue, next.local, next.nextToken)
  {
  }

  lemma SettledAccounts(st: State, next: State, wk: Wake)
    requires Accounted(st.servers, st.wakes, st.inbox, st.local) && LetGo(st, next, wk)
    requires forall x :: Recorded(next.servers, x) <==> Recorded(st.servers, x) && x != wk
    ensures Accounted(next.servers, next.wakes, next.inbox, next.local)
  {
    forall x ensures Held(next.wakes, next.inbox, next.local, x) <==> Held(st.wakes, st.inbox, st.local, x) && x != wk {
    }
  }

  /** One connection was placed; at most one queued request was consumed, for exactly one new wake. */
  ghost predicate Placed(st: State, next: State, wk: Option<Wake>) {
    && Inv(next) && NoRevival(st, next) && next.inbox == st.inbox && next.local == st.local && next.open == st.open
    && (wk.None? ==> next.queue == st.queue && next.wakes == st.wakes)
    && (wk.Some? ==> |next.queue| == |st.queue| - 1 && wk.value !in st.wakes && next.wakes == st.wakes + {wk.value})
  }

  /** Storing a connection keeps the invariant and consumes at most one queued request. */
  lemma StoreKeeps(st: State, id: nat, c: Conn, key: MatchKey, excluded: nat, env: Env)
    requires Inv(st) && id in st.servers && c in st.servers[id].owned
    ensures var p := Store(st, id, c, key, excluded, env); Placed(st, p.0, p.1)
  {
    var s := st.servers[id];
    if s.status == Online {
      match if env.resolves && key != NO_KEY then FirstMatch(st.queue, key, excluded, env.eligible) else None {
        case None =>
          PutFreeKeeps(id, s, c, key);
          QuietKeeps(st, id, PutFree(s, c, key));
        case Some(at) =>
          HandToRequest(st, id, c, at);
      }
    }
  }

  /**
   * Where a stored connection goes: to the oldest waiting request for its key that is
   * eligible, or to FREE under that key when there is none; nowhere on a server that is
   * not online.
   */
  lemma StoreFindsOldestWaiter(st: State, id: nat, c: Conn, key: MatchKey, excluded: nat, env: Env, at: nat)
    requires id in st.servers && st.servers[id].status == Online
    requires env.resolves && key != NO_KEY && IsFirstMatch(st.queue, at, key, excluded, env.eligible)
    ensures var (next, wk) := Store(st, id, c, key, excluded, env);
      var r := st.queue[at];
      && wk == Some(Wake(r.worker, r.token, id)) && next.queue == RemoveAt(st.queue, at)
      && r.token in next.servers[id].reservations
      && next.servers[id].reservations[r.token] == Reservation(r.worker, c, key)
      && next.servers[id].free == st.servers[id].free + [Slot(c, NO_KEY)]
  {
    assert FirstMatch(st.queue, key, excluded, env.eligible) == Some(at);
  }

  lemma StoreWithoutWaiter(st: State, id: nat, c: Conn, key: MatchKey, excluded: nat, env: Env)
    requires id in st.servers
    requires !env.resolves || key == NO_KEY || forall j :: 0 <= j < |st.queue| ==>
      !Wants(st.queue[j], key, excluded, env.eligible)
    ensures var (next, wk) := Store(st, id, c, key, excluded, env);
      && wk.None? && next.queue == st.queue && next.servers.Keys == st.servers.Keys
      && next.servers[id].reservations == st.servers[id].reservations
      && next.servers[id].free == st.servers[id].free + (if st.servers[id].status == Online then [Slot(c, key)] else [])
  {
    assert st.servers[id].free + [] == st.servers[id].free;
  }

  /** The state after request `at` was answered with connection `c` of server `id`. */
  function Handed(st: State, id: nat, c: Conn, at: nat): State
    requires id in st.servers && at < |st.queue|
  {
    var r := st.queue[at];
    st.(servers := st.servers[id := Reserve(st.servers[id], c, r.worker, r.token, r.key)],
        queue := RemoveAt(st.queue, at), wakes := st.wakes + {Wake(r.worker, r.token, id)})
  }

  lemma QueuedIsUnowed(st: State, id: nat, at: nat)
    requires TokensOk(st.servers, st.queue, st.nextToken) && id in st.servers && at < |st.queue|
    ensures var t := st.queue[at].token; t !in st.servers[id].reservations && t !in st.servers[id].retired
  {
    var t, s := st.queue[at].token, st.servers[id];
    assert Queued(st.queue, t);
    if t in s.reservations {
      assert Recorded(st.servers, Wake(s.reservations[t].worker, t, id));
    }
    if t in s.retired {
      assert Recorded(st.servers, Wake(s.retired[t].worker, t, id));
    }
  }

  lemma HandedServer(st: State, id: nat, c: Conn, at: nat)
    requires Inv(st) && id in st.servers && c in st.servers[id].owned && at < |st.queue|
    ensures var n := Handed(st, id, c, at).servers[id]; ServerInv(id, n) && All(n) == All(st.servers[id])
  {
    var r := st.queue[at];
    QueuedIsUnowed(st, id, at);
    ReserveKeeps(id, st.servers[id], c, r.worker, r.token, r.key);
  }

  lemma ReplacedRecords(servers: map<nat, Server>, id: nat, n: Server, wk: Wake)
    requires id in servers && wk.server == id
    requires forall w, t :: Owes(n, w, t) <==> Owes(servers[id], w, t) || (w == wk.worker && t == wk.token)
    ensures forall x :: Recorded(servers[id := n], x) <==> Recorded(servers, x) || x == wk
  {
    forall x ensures Recorded(servers[id := n], x) <==> Recorded(servers, x) || x == wk {
    }
  }

  lemma HandedRecords(st: State, id: nat, c: Conn, at: nat)
    requires Inv(st) && id in st.servers && c in st.servers[id].owned && at < |st.queue|
    ensures var wk := Wake(st.queue[at].worker, st.queue[at].token, id);
      && (forall x :: Recorded(Handed(st, id, c, at).servers, x) <==> Recorded(st.servers, x) || x == wk)
      && !Recorded(st.servers, wk)
  {
    var r, s := st.queue[at], st.servers[id];
    QueuedIsUnowed(st, id, at);
    forall w, t
      ensures Owes(Reserve(s, c, r.worker, r.token, r.key), w, t) <==> Owes(s, w, t) || (w == r.worker && t == r.token)
    {
      ReserveOwes(s, c, r.worker, r.token, r.key, w, t);
    }
    ReplacedRecords(st.servers, id, Reserve(s, c, r.worker, r.token, r.key), Wake(r.worker, r.token, id));
  }

  lemma HandedTokens(st: State, id: nat, c: Conn, at: nat)
    requires Inv(st) && id in st.servers && c in st.servers[id].owned && at < |st.queue|
    ensures TokensOk(Handed(st, id, c, at).servers, Handed(st, id, c, at).queue, Handed(st, id, c, at).nextToken)
      && NoRevival(st, Handed(st, id, c, at))
  {
    var next := Handed(st, id, c, at);
    var t0 := st.queue[at].token;
    assert Queued(st.queue, t0);
    HandedRecords(st, id, c, at);
    QueueShrinks(st, next, at);
    forall t: nat | Live(next.servers, next.queue, t) ensures Live(st.servers, st.queue, t) {
      if !Queued(next.queue, t) {
        var x :| Recorded(next.servers, x) && x.token == t;
        assert t == t0 || Recorded(st.servers, x);
      }
    }
  }

  lemma HandedQueue(st: State, id: nat, c: Conn, at: nat)
    requires Inv(st) && id in st.servers && at < |st.queue|
    ensures QueueOk(Handed(st, id, c, at).queue, Handed(st, id, c, at).local, Handed(st, id, c, at).nextToken)
  {
    QueueShrinks(st, Handed(st, id, c, at), at);
  }

  /** Answering a queued request turns it into exactly one record with exactly one wake. */
  lemma HandToRequest(st: State, id: nat, c: Conn, at: nat)
    requires Inv(st) && id in st.servers && c in st.servers[id].owned && at < |st.queue|
    ensures Inv(Handed(st, id, c, at)) && NoRevival(st, Handed(st, id, c, at))
    ensures Wake(st.queue[at].worker, st.queue[at].token, id) !in st.wakes
  {
    HandedTokens(st, id, c, at);
    HandedQueue(st, id, c, at);
    HandedAccounted(st, id, c, at);
    HandedConns(st, id, c, at);
  }

  lemma HandedAccounted(st: State, id: nat, c: Conn, at: nat)
    requires Inv(st) && id in st.servers && c in st.servers[id].owned && at < |st.queue|
    ensures Accounted(Handed(st, id, c, at).servers, Handed(st, id, c, at).wakes, Handed(st, id, c, at).inbox,
      Handed(st, id, c, at).local)
    ensures Wake(st.queue[at].worker, st.queue[at].token, id) !in st.wakes
  {
    HandedRecords(st, id, c, at);
    OneMoreWake(st, Handed(st, id, c, at), Wake(st.queue[at].worker, st.queue[at].token, id));
  }

  lemma OneMoreWake(st: State, next: State, wk: Wake)
    requires Accounted(st.servers, st.wakes, st.inbox, st.local) && !Recorded(st.servers, wk)
    requires next.wakes == st.wakes + {wk} && next.inbox == st.inbox && next.local == st.local
    requires forall x :: Recorded(next.servers, x) <==> Recorded(st.servers, x) || x == wk
    ensures Accounted(next.servers, next.wakes, next.inbox, next.local) && wk !in st.wakes
  {
    assert !Held(st.wakes, st.inbox, st.local, wk);
    forall x ensures Held(next.wakes, next.inbox, next.local, x) <==> Held(st.wakes, st.inbox, st.local, x) || x == wk {
    }
  }

  lemma HandedConns(st: State, id: nat, c: Conn, at: nat)
    requires Inv(st) && id in st.servers && c in st.servers[id].owned && at < |st.queue|
    ensures ConnsOk(Handed(st, id, c, at).servers, Handed(st, id, c, at).open)
  {
    HandedServer(st, id, c, at);
    var next := Handed(st, id, c, at);
    ConnsReplace(st, next, id, next.servers[id]);
  }

  lemma ConnsReplace(st: State, next: State, id: nat, n: Server)
    requires ConnsOk(st.servers, st.open) && id in st.servers && ServerInv(id, n) && All(n) == All(st.servers[id])
    requires next.servers == st.servers[id := n] && next.open == st.open
    ensures ConnsOk(next.servers, next.open)
  {
  }

  lemma TokenStaysQueued(st: State, next: State, at: nat, t: nat)
    requires at < |st.queue| && Distinct(st.queue) && next.queue == RemoveAt(st.queue, at)
    ensures Queued(next.queue, t) <==> Queued(st.queue, t) && t != st.queue[at].token
  {
    if Queued(st.queue, t) && t != st.queue[at].token {
      var i :| 0 <= i < |st.queue| && st.queue[i].token == t;
      assert next.queue[if i < at then i else i - 1].token == t;
    }
    if Queued(next.queue, t) {
      var i :| 0 <= i < |next.queue| && next.queue[i].token == t;
      assert st.queue[if i < at then i else i + 1].token == t;
    }
  }

  /** Dropping one request leaves the others queued and un-queues its token. */
  lemma QueueShrinks(st: State, next: State, at: nat)
    requires at < |st.queue| && Distinct(st.queue) && next.queue == RemoveAt(st.queue, at)
    ensures Distinct(next.queue)
    ensures forall t :: Queued(next.queue, t) <==> Queued(st.queue, t) && t != st.queue[at].token
    ensures forall i :: 0 <= i < |next.queue| ==> next.queue[i] in st.queue
  {
    RemoveAtKeeps(st.queue, at);
    forall t ensures Queued(next.queue, t) <==> Queued(st.queue, t) && t != st.queue[at].token {
      TokenStaysQueued(st, next, at, t);
    }
  }

  /** A worker withdraws its own queued request. */
  lemma WithdrawKeeps(st: State, at: nat, w: nat)
    requires Inv(st) && at < |st.queue| && w == st.queue[at].worker
    ensures var next := st.(queue := RemoveAt(st.queue, at), local := st.local[w := Idle]);
      Inv(next) && NoRevival(st, next)
  {
    var next := st.(queue := RemoveAt(st.queue, at), local := st.local[w := Idle]);
    QueueShrinks(st, next, at);
    forall x ensures Recorded(next.servers, x) <==> Recorded(st.servers, x) {
    }
    forall x ensures Held(next.wakes, next.inbox, next.local, x) <==> Held(st.wakes, st.inbox, st.local, x) {
    }
    RemoveAtKeeps(st.queue, at);
    forall t: nat | Live(next.servers, next.queue, t) ensures Live(st.servers, st.queue, t) {
      if !Queued(next.queue, t) {
        var x :| Recorded(next.servers, x) && x.token == t;
        assert Recorded(st.servers, x);
      }
    }
  }

  /** Cancelling the record behind a wake, holder included, then re-storing its connection. */
  lemma CancelKeeps(st: State, start: State, wk: Wake, env: Env)
    requires Inv(st) && Held(st.wakes, st.inbox, st.local, wk)
    requires start.servers == st.servers && start.queue == st.queue
    requires start.nextToken == st.nextToken && start.open == st.open
    requires LetGo(st, start, wk)
    ensures Recorded(st.servers, wk)
    ensures var (next, again) := Cancel(start, wk.server, wk.worker, wk.token, env);
      && Inv(next) && NoRevival(st, next)
      && next.inbox == start.inbox && next.local == start.local && next.open == st.open
      && (again.None? ==> next.queue == st.queue && next.wakes == start.wakes)
      && (again.Some? ==> |next.queue| == |st.queue| - 1 && again.value !in start.wakes
                          && next.wakes == start.wakes + {again.value})
  {
    assert Recorded(st.servers, wk);
    var id := wk.server;
    assert !Queued(st.queue, wk.token);
    assert FindRequest(st.queue, wk.worker, wk.token).None?;
    CancelRecordKeeps(id, st.servers[id], wk.worker, wk.token);
    var (n, back) := CancelRecord(st.servers[id], wk.worker, wk.token);
    var freed := start.(servers := st.servers[id := n]);
    SettleKeeps(st, freed, wk, n);
    if back.Some? {
      GiveBackKeeps(freed, id, back.value, env);
      NoRevivalTrans(st, freed, GiveBack(freed, id, back.value, env).0);
    }
  }

  lemma NoRevivalTrans(a: State, b: State, c: State)
    requires NoRevival(a, b) && NoRevival(b, c)
    ensures NoRevival(a, c)
  {
  }

  lemma OfflineStoreKeeps(st: State, id: nat, c: Conn, key: MatchKey)
    requires Inv(st) && id in st.servers && c in st.servers[id].owned
    ensures Placed(st, st.(servers := st.servers[id := PutFree(st.servers[id], c, key)]), None)
  {
    PutFreeKeeps(id, st.servers[id], c, key);
    QuietKeeps(st, id, PutFree(st.servers[id], c, key));
  }

  lemma GiveBackKeeps(st: State, id: nat, slot: Slot, env: Env)
    requires Inv(st) && id in st.servers && slot.conn in st.servers[id].owned
    ensures var p := GiveBack(st, id, slot, env); Placed(st, p.0, p.1)
  {
    if st.servers[id].status == Online {
      StoreKeeps(st, id, slot.conn, slot.key, NO_WORKER, env);
    } else {
      OfflineStoreKeeps(st, id, slot.conn, slot.key);
    }
  }
}
