/**
 * Where capacity goes when a reservation is cancelled: to the next waiter for its key, or
 * back to FREE under that key.
 */
module ReservationOffers {
  import opened Common
  import opened PoolTypes
  import opened CapacityQueue
  import opened ReservationServer
  import opened ReservationProtocol

  /** The connection reserved for a wake, under the key it must be stored with; None once it is retired. */
  function Cargo(servers: map<nat, Server>, wk: Wake): Option<Slot> {
    if wk.server in servers && wk.token in servers[wk.server].reservations
       && servers[wk.server].reservations[wk.token].worker == wk.worker
    then
      var r := servers[wk.server].reservations[wk.token];
      Some(Slot(r.conn, r.key))
    else None
  }

  /** Nobody in the queue may have a connection keyed `key`. */
  ghost predicate NoWaiter(queue: seq<Request>, key: MatchKey, eligible: set<nat>) {
    forall j :: 0 <= j < |queue| ==>
      !(queue[j].key == key && queue[j].worker != NO_WORKER && queue[j].token in eligible)
  }

  ghost predicate NotQueued(queue: seq<Request>, wk: Wake) {
    forall j :: 0 <= j < |queue| ==> !(queue[j].worker == wk.worker && queue[j].token == wk.token)
  }

  /** The server without the reservation: the connection is with the caller. */
  lemma LiveRecordCancelled(id: nat, s: Server, worker: nat, token: nat)
    requires ServerInv(id, s) && token in s.reservations && s.reservations[token].worker == worker
    ensures var r := s.reservations[token];
      var (n, back) := CancelRecord(s, worker, token);
      && back == Some(Slot(r.conn, r.key)) && r.key != NO_KEY && r.conn in n.owned
      && n.reservations == s.reservations - {token} && n.byConn == s.byConn - {r.conn}
      && n.retired == s.retired && n.used == s.used && n.status == s.status
      && (forall x :: x in n.free <==> x in s.free && x.conn != r.conn)
  {
    var c := s.reservations[token].conn;
    assert Slot(c, NO_KEY) in s.free;
    ConnSetSwapRemove(s.free, FindSlot(s.free, c).value);
  }

  /** A cancelled connection of an online server goes to the oldest eligible waiter for its key. */
  lemma CancelFindsNextWaiter(st: State, wk: Wake, x: Slot, env: Env, at: nat)
    requires Cargo(st.servers, wk) == Some(x) && ServerInv(wk.server, st.servers[wk.server])
    requires NotQueued(st.queue, wk) && st.servers[wk.server].status == Online && env.resolves
    requires IsFirstMatch(st.queue, at, x.key, NO_WORKER, env.eligible)
    ensures var (next, again) := Cancel(st, wk.server, wk.worker, wk.token, env);
      var r := st.queue[at];
      && again == Some(Wake(r.worker, r.token, wk.server)) && next.queue == RemoveAt(st.queue, at)
      && Cargo(next.servers, again.value) == Some(x)
      && (wk.token != r.token ==> Cargo(next.servers, wk) == None)
  {
    var id := wk.server;
    LiveRecordCancelled(id, st.servers[id], wk.worker, wk.token);
    var freed := st.(servers := st.servers[id := CancelRecord(st.servers[id], wk.worker, wk.token).0]);
    StoreFindsOldestWaiter(freed, id, x.conn, x.key, NO_WORKER, env, at);
  }

  /** With nobody to give it to, it is FREE under its key and nobody is woken. */
  lemma CancelWithoutWaiter(st: State, wk: Wake, x: Slot, env: Env)
    requires Cargo(st.servers, wk) == Some(x) && ServerInv(wk.server, st.servers[wk.server]) && NotQueued(st.queue, wk)
    requires st.servers[wk.server].status == Online && env.resolves ==> NoWaiter(st.queue, x.key, env.eligible)
    ensures var (next, again) := Cancel(st, wk.server, wk.worker, wk.token, env);
      && again.None? && next.queue == st.queue && wk.server in next.servers
      && x in next.servers[wk.server].free && next.servers[wk.server].status == st.servers[wk.server].status
      && next.servers[wk.server].reservations == st.servers[wk.server].reservations - {wk.token}
  {
    var id := wk.server;
    LiveRecordCancelled(id, st.servers[id], wk.worker, wk.token);
    var n := CancelRecord(st.servers[id], wk.worker, wk.token).0;
    var freed := st.(servers := st.servers[id := n]);
    if n.status == Online {
      StoreWithoutWaiter(freed, id, x.conn, x.key, NO_WORKER, env);
    }
    var next := Cancel(st, id, wk.worker, wk.token, env).0;
    assert next.servers[id].free == n.free + [x];
  }

  /** A request that is still queued is withdrawn, and nothing else changes. */
  lemma CancelWithdraws(st: State, id: nat, at: nat, env: Env)
    requires id in st.servers && at < |st.queue| && Distinct(st.queue)
    ensures Cancel(st, id, st.queue[at].worker, st.queue[at].token, env)
      == (st.(queue := RemoveAt(st.queue, at)), None)
  {
    assert FindRequest(st.queue, st.queue[at].worker, st.queue[at].token) == Some(at);
  }

  /** A retirement record is dropped, and nothing else changes; without one nothing changes at all. */
  lemma CancelDropsRecord(st: State, wk: Wake, env: Env)
    requires wk.server in st.servers && NotQueued(st.queue, wk)
    requires wk.token !in st.servers[wk.server].reservations
    ensures var s := st.servers[wk.server];
      var owed := Owes(s, wk.worker, wk.token);
      Cancel(st, wk.server, wk.worker, wk.token, env)
      == (st.(servers := st.servers[wk.server := if owed then s.(retired := s.retired - {wk.token}) else s]), None)
  {
  }

  // ----- a chain of cancellations

  /** The cargo of a chain on server `id` is now reserved for `wk`. */
  ghost predicate PassedTo(cargo: Option<Slot>, id: nat, servers: map<nat, Server>, wk: Wake) {
    cargo.Some? ==> wk.server == id && Cargo(servers, wk) == cargo
  }

  /** It is FREE under its key, and no eligible waiter for that key is left. */
  ghost predicate LeftFree(cargo: Option<Slot>, id: nat, servers: map<nat, Server>, queue: seq<Request>, env: Env) {
    cargo.Some? ==>
      && id in servers && cargo.value in servers[id].free
      && (servers[id].status == Online && env.resolves ==> NoWaiter(queue, cargo.value.key, env.eligible))
  }

  /** One cancellation passes the connection on, or finds that there is nobody to pass it to. */
  lemma CancelPasses(st: State, wk: Wake, env: Env)
    requires wk.server in st.servers && ServerInv(wk.server, st.servers[wk.server]) && NotQueued(st.queue, wk)
    ensures var (next, again) := Cancel(st, wk.server, wk.worker, wk.token, env);
      && (again.Some? ==> PassedTo(Cargo(st.servers, wk), wk.server, next.servers, again.value))
      && (again.None? ==> LeftFree(Cargo(st.servers, wk), wk.server, next.servers, next.queue, env))
  {
    var cargo := Cargo(st.servers, wk);
    if cargo.Some? {
      LiveRecordCancelled(wk.server, st.servers[wk.server], wk.worker, wk.token);
      var found := FirstMatch(st.queue, cargo.value.key, NO_WORKER, env.eligible);
      if st.servers[wk.server].status == Online && env.resolves && found.Some? {
        CancelFindsNextWaiter(st, wk, cargo.value, env, found.value);
      } else {
        assert found.None? ==> NoWaiter(st.queue, cargo.value.key, env.eligible);
        CancelWithoutWaiter(st, wk, cargo.value, env);
      }
    }
  }
}
