/**
 * One server's pool as its mutex sections leave it: FREE and USED lists,
 * reservations of FREE connections for waiting workers, and the records of
 * reservations that were destroyed before their worker collected them.
 */
module ReservationServer {
  import opened Common
  import opened PoolTypes

  datatype Status = Online | Shunned | OfflineSoft | OfflineHard

  datatype EndReason = Acquired | Released | ExplicitRemove | CreateEvict | IdleTrim | MaxAge
                     | ServerOffline | PoolDrop | InvalidFreeState

  predicate IsRetirement(r: EndReason) {
    r != Acquired && r != Released
  }

  datatype Reservation = Reservation(worker: nat, conn: Conn, key: MatchKey)

  datatype Retired = Retired(worker: nat, reason: EndReason)

  /**
   * `owned` holds the server's connections that are in neither list: just opened,
   * detached, or removed and not yet deleted.
   */
  datatype Server = Server(
    status: Status,
    free: seq<Slot>,
    used: seq<Slot>,
    owned: set<Conn>,
    reservations: map<nat, Reservation>,
    byConn: map<Conn, nat>,
    retired: map<nat, Retired>)

  ghost function ConnSet(s: seq<Slot>): set<Conn> {
    if s == [] then {} else ConnSet(s[..|s| - 1]) + {s[|s| - 1].conn}
  }

  ghost predicate DistinctConns(s: seq<Slot>) {
    forall i, j :: 0 <= i < j < |s| ==> s[i].conn != s[j].conn
  }

  /** Every live connection of the server, wherever it currently is. */
  ghost function All(s: Server): set<Conn> {
    ConnSet(s.free) + ConnSet(s.used) + s.owned
  }

  /** Each connection of server `id` is in exactly one place. */
  ghost predicate Partitioned(id: nat, s: Server) {
    && DistinctConns(s.free) && DistinctConns(s.used)
    && ConnSet(s.free) !! ConnSet(s.used) !! s.owned
    && forall c :: c in All(s) ==> c.parent == id
  }

  /** Reservations and their reverse index agree, and reserved connections are FREE and keyless. */
  ghost predicate Reserved(s: Server) {
    && (forall t :: t in s.reservations ==>
         s.reservations[t].conn in s.byConn && s.byConn[s.reservations[t].conn] == t)
    && (forall c :: c in s.byConn ==>
         s.byConn[c] in s.reservations && s.reservations[s.byConn[c]].conn == c && Slot(c, NO_KEY) in s.free)
    && (forall t :: t in s.reservations ==> s.reservations[t].key != NO_KEY)
    && s.reservations.Keys !! s.retired.Keys
  }

  ghost predicate ServerInv(id: nat, s: Server) {
    Partitioned(id, s) && Reserved(s)
  }

  /** The server still owes `worker` an answer for `token`: a reservation or its retirement. */
  predicate Owes(s: Server, worker: nat, token: nat) {
    || (token in s.reservations && s.reservations[token].worker == worker)
    || (token in s.retired && s.retired[token].worker == worker)
  }

  // ----- moves of one connection

  /** `polardb_forget_reserved_connection_unlocked`. */
  function Forget(s: Server, c: Conn, reason: EndReason): Server {
    if c !in s.byConn then s
    else
      var t := s.byConn[c];
      var retired :=
        if t in s.reservations && IsRetirement(reason) && t !in s.retired
        then s.retired[t := Retired(s.reservations[t].worker, reason)]
        else s.retired;
      s.(reservations := s.reservations - {t}, byConn := s.byConn - {c}, retired := retired)
  }

  /** `remove_unlocked` on FREE: the connection passes to the caller, its reservation ends. */
  function TakeFree(s: Server, i: nat, reason: EndReason): Server
    requires i < |s.free|
  {
    var f := Forget(s, s.free[i].conn, reason);
    f.(free := SwapRemove(s.free, i), owned := s.owned + {s.free[i].conn})
  }

  function TakeUsed(s: Server, i: nat): Server
    requires i < |s.used|
  {
    s.(used := SwapRemove(s.used, i), owned := s.owned + {s.used[i].conn})
  }

  function PutFree(s: Server, c: Conn, key: MatchKey): Server {
    s.(free := s.free + [Slot(c, key)], owned := s.owned - {c})
  }

  function PutUsed(s: Server, c: Conn, key: MatchKey): Server {
    s.(used := s.used + [Slot(c, key)], owned := s.owned - {c})
  }

  /** `reserve_reader_pool_connection_unlocked`: keyless into FREE, then both indexes. */
  function Reserve(s: Server, c: Conn, worker: nat, token: nat, key: MatchKey): Server {
    var f := PutFree(s, c, NO_KEY);
    f.(reservations := s.reservations[token := Reservation(worker, c, key)], byConn := s.byConn[c := token])
  }

  /** Where a connection sits in a list. */
  function FindSlot(slots: seq<Slot>, c: Conn): (i: Option<nat>)
    ensures i.Some? ==> i.value < |slots| && slots[i.value].conn == c
    ensures i.None? <==> forall j :: 0 <= j < |slots| ==> slots[j].conn != c
  {
    if slots == [] then None
    else if slots[0].conn == c then Some(0)
    else match FindSlot(slots[1..], c)
      case None => None
      case Some(i) => Some(i + 1)
  }

  // ----- what the moves keep

  lemma ConnSetAppend(s: seq<Slot>, x: Slot)
    ensures ConnSet(s + [x]) == ConnSet(s) + {x.conn}
    ensures DistinctConns(s) && x.conn !in ConnSet(s) ==> DistinctConns(s + [x])
  {
    assert (s + [x])[..|s|] == s;
    ConnSetMember(s, x.conn);
  }

  lemma {:induction false} ConnSetMember(s: seq<Slot>, c: Conn)
    ensures c in ConnSet(s) <==> exists i :: 0 <= i < |s| && s[i].conn == c
  {
    if s != [] {
      ConnSetMember(s[..|s| - 1], c);
      assert c == s[|s| - 1].conn ==> exists i :: 0 <= i < |s| && s[i].conn == c;
    }
  }

  lemma SwapRemoveSlots(s: seq<Slot>, i: nat)
    requires i < |s| && DistinctConns(s)
    ensures DistinctConns(SwapRemove(s, i))
    ensures forall x :: x in SwapRemove(s, i) <==> x in s && x != s[i]
    ensures forall x :: x in SwapRemove(s, i) ==> x.conn != s[i].conn
  {
    SwapRemoveNoDup(s, i);
  }

  lemma SwapRemoveMember(s: seq<Slot>, i: nat, c: Conn)
    requires i < |s| && DistinctConns(s)
    ensures c in ConnSet(SwapRemove(s, i)) <==> c in ConnSet(s) && c != s[i].conn
  {
    var r := SwapRemove(s, i);
    SwapRemoveSlots(s, i);
    ConnSetMember(s, c);
    ConnSetMember(r, c);
    if c in ConnSet(s) && c != s[i].conn {
      var j :| 0 <= j < |s| && s[j].conn == c;
      assert s[j] in r;
    }
    if c in ConnSet(r) {
      var j :| 0 <= j < |r| && r[j].conn == c;
      assert r[j] in s;
    }
  }

  lemma ConnSetSwapRemove(s: seq<Slot>, i: nat)
    requires i < |s| && DistinctConns(s)
    ensures DistinctConns(SwapRemove(s, i))
    ensures ConnSet(SwapRemove(s, i)) == ConnSet(s) - {s[i].conn}
    ensures forall x :: x in SwapRemove(s, i) <==> x in s && x != s[i]
    ensures s[i].conn in ConnSet(s)
  {
    SwapRemoveSlots(s, i);
    ConnSetMember(s, s[i].conn);
    forall c ensures c in ConnSet(SwapRemove(s, i)) <==> c in ConnSet(s) && c != s[i].conn {
      SwapRemoveMember(s, i, c);
    }
  }

  lemma ReservedIsFree(s: Server, c: Conn)
    requires Reserved(s) && c in s.byConn
    ensures c in ConnSet(s.free)
  {
    ConnSetMember(s.free, c);
    var i :| 0 <= i < |s.free| && s.free[i] == Slot(c, NO_KEY);
  }

  /** A reservation ends for exactly one token; with a retirement reason its record remains. */
  lemma ForgetKeeps(s: Server, c: Conn, reason: EndReason)
    requires Reserved(s)
    ensures Reserved(Forget(s, c, reason)) && c !in Forget(s, c, reason).byConn
    ensures forall w, t :: Owes(Forget(s, c, reason), w, t) <==>
      Owes(s, w, t) && (c in s.byConn && s.byConn[c] == t ==> IsRetirement(reason))
  {
  }

  lemma TakeFreeReserved(s: Server, i: nat, reason: EndReason)
    requires Reserved(s) && DistinctConns(s.free) && i < |s.free|
    ensures Reserved(TakeFree(s, i, reason))
  {
    var c, n := s.free[i].conn, TakeFree(s, i, reason);
    ForgetKeeps(s, c, reason);
    ConnSetSwapRemove(s.free, i);
    forall d | d in n.byConn ensures Slot(d, NO_KEY) in n.free {
      assert Slot(d, NO_KEY) in s.free && d != c;
    }
  }

  lemma TakeFreePartition(id: nat, s: Server, i: nat, reason: EndReason)
    requires Partitioned(id, s) && i < |s.free|
    ensures Partitioned(id, TakeFree(s, i, reason)) && All(TakeFree(s, i, reason)) == All(s)
  {
    ConnSetSwapRemove(s.free, i);
  }

  lemma TakeFreeKeeps(id: nat, s: Server, i: nat, reason: EndReason)
    requires ServerInv(id, s) && i < |s.free|
    ensures ServerInv(id, TakeFree(s, i, reason)) && All(TakeFree(s, i, reason)) == All(s)
    ensures forall w, t :: Owes(TakeFree(s, i, reason), w, t) <==>
      Owes(s, w, t) && (s.free[i].conn in s.byConn && s.byConn[s.free[i].conn] == t ==> IsRetirement(reason))
  {
    var c := s.free[i].conn;
    TakeFreeReserved(s, i, reason);
    TakeFreePartition(id, s, i, reason);
    ForgetKeeps(s, c, reason);
    forall w, t ensures Owes(TakeFree(s, i, reason), w, t) <==> Owes(Forget(s, c, reason), w, t) {
    }
  }

  lemma TakeUsedKeeps(id: nat, s: Server, i: nat)
    requires ServerInv(id, s) && i < |s.used|
    ensures ServerInv(id, TakeUsed(s, i)) && All(TakeUsed(s, i)) == All(s)
  {
    ConnSetSwapRemove(s.used, i);
  }

  lemma PutFreeKeeps(id: nat, s: Server, c: Conn, key: MatchKey)
    requires ServerInv(id, s) && c in s.owned
    ensures ServerInv(id, PutFree(s, c, key)) && All(PutFree(s, c, key)) == All(s)
  {
    ConnSetAppend(s.free, Slot(c, key));
  }

  lemma PutUsedKeeps(id: nat, s: Server, c: Conn, key: MatchKey)
    requires ServerInv(id, s) && c in s.owned
    ensures ServerInv(id, PutUsed(s, c, key)) && All(PutUsed(s, c, key)) == All(s)
  {
    ConnSetAppend(s.used, Slot(c, key));
  }

  lemma ReserveMaps(s: Server, c: Conn, worker: nat, token: nat, key: MatchKey)
    requires Reserved(s) && c !in s.byConn && key != NO_KEY && token !in s.reservations && token !in s.retired
    ensures var n := Reserve(s, c, worker, token, key);
      && (forall t :: t in n.reservations ==>
           n.reservations[t].conn in n.byConn && n.byConn[n.reservations[t].conn] == t
           && n.reservations[t].key != NO_KEY)
      && (forall d :: d in n.byConn ==> n.byConn[d] in n.reservations && n.reservations[n.byConn[d]].conn == d)
      && n.reservations.Keys !! n.retired.Keys
  {
  }

  lemma ReserveIndexes(s: Server, c: Conn, worker: nat, token: nat, key: MatchKey)
    requires Reserved(s) && c !in s.byConn && key != NO_KEY
    requires token !in s.reservations && token !in s.retired
    ensures Reserved(Reserve(s, c, worker, token, key))
  {
    var n := Reserve(s, c, worker, token, key);
    ReserveMaps(s, c, worker, token, key);
    assert n.free[|s.free|] == Slot(c, NO_KEY);
    forall d | d in n.byConn ensures Slot(d, NO_KEY) in n.free {
      if d != c {
        assert Slot(d, NO_KEY) in s.free;
      }
    }
  }

  lemma ReserveOwes(s: Server, c: Conn, worker: nat, token: nat, key: MatchKey, w: nat, t: nat)
    requires token !in s.reservations && token !in s.retired
    ensures Owes(Reserve(s, c, worker, token, key), w, t) <==> Owes(s, w, t) || (w == worker && t == token)
  {
  }

  lemma ReservePartition(id: nat, s: Server, c: Conn, worker: nat, token: nat, key: MatchKey)
    requires Partitioned(id, s) && c in s.owned
    ensures Partitioned(id, Reserve(s, c, worker, token, key)) && All(Reserve(s, c, worker, token, key)) == All(s)
  {
    ConnSetAppend(s.free, Slot(c, NO_KEY));
  }

  lemma ReserveKeeps(id: nat, s: Server, c: Conn, worker: nat, token: nat, key: MatchKey)
    requires ServerInv(id, s) && c in s.owned && key != NO_KEY
    requires token !in s.reservations && token !in s.retired
    ensures ServerInv(id, Reserve(s, c, worker, token, key)) && All(Reserve(s, c, worker, token, key)) == All(s)
    ensures forall w, t ::
      Owes(Reserve(s, c, worker, token, key), w, t) <==> Owes(s, w, t) || (w == worker && t == token)
  {
    if c in s.byConn {
      ReservedIsFree(s, c);
    }
    ReserveIndexes(s, c, worker, token, key);
    ReservePartition(id, s, c, worker, token, key);
    forall w, t
      ensures Owes(Reserve(s, c, worker, token, key), w, t) <==> Owes(s, w, t) || (w == worker && t == token)
    {
      ReserveOwes(s, c, worker, token, key, w, t);
    }
  }

  lemma ReservedSlotIsKeyless(id: nat, s: Server, i: nat)
    requires ServerInv(id, s) && i < |s.free| && s.free[i].conn in s.byConn
    ensures s.free[i].key == NO_KEY
  {
    var j :| 0 <= j < |s.free| && s.free[j] == Slot(s.free[i].conn, NO_KEY);
    assert i == j;
  }

  /** Exact-key lookup can never return a connection reserved for a worker. */
  lemma KeyedSlotIsUnreserved(id: nat, s: Server, i: nat)
    requires ServerInv(id, s) && i < |s.free| && s.free[i].key != NO_KEY
    ensures s.free[i].conn !in s.byConn
  {
    if s.free[i].conn in s.byConn {
      ReservedSlotIsKeyless(id, s, i);
    }
  }

  // ----- collecting and eviction

  datatype TakeResult = Missing | Pending | RetiredBecause(reason: EndReason) | Got(conn: Conn)

  /** The tail of `take_reader_pool_reservation`: pending, retired once, or missing. */
  function TakeRecord(s: Server, worker: nat, token: nat, pending: bool): (Server, TakeResult) {
    if pending then (s, Pending)
    else if token in s.retired && s.retired[token].worker == worker then
      (s.(retired := s.retired - {token}), RetiredBecause(s.retired[token].reason))
    else (s, Missing)
  }

  /** `take_reader_pool_reservation`; `pending` says the request is still queued. */
  function TakeReservation(s: Server, worker: nat, token: nat, pending: bool): (Server, TakeResult) {
    if token in s.reservations && s.reservations[token].worker == worker then
      var r := s.reservations[token];
      match FindSlot(s.free, r.conn)
      case Some(i) =>
        if s.status == Online
        then (PutUsed(TakeFree(s, i, Acquired), r.conn, r.key), Got(r.conn))
        else TakeRecord(Forget(s, r.conn, ServerOffline), worker, token, pending)
      case None =>
        TakeRecord(Forget(s, r.conn, if s.status == Online then InvalidFreeState else ServerOffline), worker, token,
          pending)
    else TakeRecord(s, worker, token, pending)
  }

  lemma CollectOnline(id: nat, s: Server, token: nat, i: nat)
    requires ServerInv(id, s) && token in s.reservations && i < |s.free|
    requires s.free[i].conn == s.reservations[token].conn
    ensures var r := s.reservations[token];
      var n := PutUsed(TakeFree(s, i, Acquired), r.conn, r.key);
      && ServerInv(id, n) && All(n) == All(s) && r.conn in ConnSet(n.used)
      && forall w, t :: Owes(n, w, t) <==> Owes(s, w, t) && t != token
  {
    var r := s.reservations[token];
    var f := TakeFree(s, i, Acquired);
    TakeFreeKeeps(id, s, i, Acquired);
    PutUsedKeeps(id, f, r.conn, r.key);
    ConnSetAppend(s.used, Slot(r.conn, r.key));
    forall w, t ensures Owes(PutUsed(f, r.conn, r.key), w, t) <==> Owes(s, w, t) && t != token {
      assert Owes(PutUsed(f, r.conn, r.key), w, t) <==> Owes(f, w, t);
    }
  }

  /** Without a reservation to hand out, the answer is pending, retired once, or missing. */
  lemma TakeRecordKeeps(id: nat, s: Server, worker: nat, token: nat, pending: bool)
    requires ServerInv(id, s) && !(token in s.reservations && s.reservations[token].worker == worker)
    ensures var (n, res) := TakeRecord(s, worker, token, pending);
      && ServerInv(id, n) && All(n) == All(s) && n.free == s.free
      && (forall w, t :: Owes(n, w, t) <==> Owes(s, w, t) && !(w == worker && t == token && !res.Pending?))
      && (res.Pending? <==> pending) && (res.Missing? <==> !pending && !Owes(s, worker, token)) && !res.Got?
  {
  }

  /** A server that is not online turns the worker's reservation into a record first. */
  lemma OfflineRecord(id: nat, s: Server, worker: nat, token: nat)
    requires ServerInv(id, s) && token in s.reservations && s.reservations[token].worker == worker
    ensures var f := Forget(s, s.reservations[token].conn, ServerOffline);
      && ServerInv(id, f) && All(f) == All(s) && f.free == s.free && token !in f.reservations
      && token in f.retired && f.retired[token] == Retired(worker, ServerOffline)
      && forall w, t :: Owes(f, w, t) <==> Owes(s, w, t)
  {
    ForgetKeeps(s, s.reservations[token].conn, ServerOffline);
  }

  /**
   * What a collecting worker gets: its reserved connection, moved to USED, exactly when
   * it holds a live reservation on an online server. Otherwise it is told to keep
   * waiting exactly while its request is queued, which changes no claim; or once that
   * its reservation is gone; or that there is nothing. A reserved connection of a server
   * that is not online stays FREE.
   */
  lemma TakeReservationKeeps(id: nat, s: Server, worker: nat, token: nat, pending: bool)
    requires ServerInv(id, s)
    ensures var (n, res) := TakeReservation(s, worker, token, pending);
      && ServerInv(id, n) && All(n) == All(s)
      && (forall w, t :: Owes(n, w, t) <==> Owes(s, w, t) && !(w == worker && t == token && !res.Pending?))
      && (res.Got? <==> token in s.reservations && s.reservations[token].worker == worker && s.status == Online)
      && (res.Got? ==> res.conn == s.reservations[token].conn && res.conn in ConnSet(n.used))
      && (res.Pending? <==> pending && !res.Got?)
      && (res.Missing? <==> !pending && !Owes(s, worker, token))
      && (!res.Got? ==> n.free == s.free)
  {
    if token in s.reservations && s.reservations[token].worker == worker {
      TakeLive(id, s, worker, token, pending);
    } else {
      TakeRecordKeeps(id, s, worker, token, pending);
    }
  }

  lemma TakeLive(id: nat, s: Server, worker: nat, token: nat, pending: bool)
    requires ServerInv(id, s) && token in s.reservations && s.reservations[token].worker == worker
    ensures var (n, res) := TakeReservation(s, worker, token, pending);
      && ServerInv(id, n) && All(n) == All(s)
      && (forall w, t :: Owes(n, w, t) <==> Owes(s, w, t) && !(w == worker && t == token && !res.Pending?))
      && (if s.status == Online then res == Got(s.reservations[token].conn) && res.conn in ConnSet(n.used)
          else n.free == s.free && res == if pending then Pending else RetiredBecause(ServerOffline))
  {
    var r := s.reservations[token];
    assert Slot(r.conn, NO_KEY) in s.free;
    var i := FindSlot(s.free, r.conn).value;
    if s.status == Online {
      CollectOnline(id, s, token, i);
    } else {
      OfflineRecord(id, s, worker, token);
      TakeRecordKeeps(id, Forget(s, r.conn, ServerOffline), worker, token, pending);
    }
  }

  /** FREE connections no worker is waiting for. */
  function Evictable(s: Server): nat {
    CountUnreserved(s.free, s.byConn)
  }

  function CountUnreserved(slots: seq<Slot>, byConn: map<Conn, nat>): nat {
    if slots == [] then 0
    else CountUnreserved(slots[..|slots| - 1], byConn) + Weight(slots[|slots| - 1], byConn)
  }

  /** The eviction scan from `i` on: swap-remove unreserved slots until `n` are out. */
  function EvictFrom(s: Server, i: nat, n: nat): (r: (Server, seq<Conn>))
    decreases |s.free| - i
  {
    if i >= |s.free| || n == 0 then (s, [])
    else if s.free[i].conn in s.byConn then EvictFrom(s, i + 1, n)
    else
      var (t, out) := EvictFrom(TakeFree(s, i, CreateEvict), i, n - 1);
      (t, [s.free[i].conn] + out)
  }

  /** `evict_unreserved_free_for_create`. */
  function Evict(s: Server, preferred: nat, required: nat): (Server, seq<Conn>, bool) {
    if preferred == 0 && required == 0 then (s, [], true)
    else if preferred < required || Evictable(s) < required then (s, [], false)
    else
      var (t, out) := EvictFrom(s, 0, Min(preferred, Evictable(s)));
      (t, out, true)
  }

  function Weight(x: Slot, byConn: map<Conn, nat>): nat {
    if x.conn in byConn then 0 else 1
  }

  lemma {:induction false} CountUpdate(slots: seq<Slot>, byConn: map<Conn, nat>, i: nat, x: Slot)
    requires i < |slots|
    ensures CountUnreserved(slots[i := x], byConn) + Weight(slots[i], byConn)
      == CountUnreserved(slots, byConn) + Weight(x, byConn)
  {
    var n := |slots| - 1;
    if i == n {
      assert slots[i := x][..n] == slots[..n];
    } else {
      assert slots[i := x][..n] == slots[..n][i := x];
      CountUpdate(slots[..n], byConn, i, x);
    }
  }

  lemma CountSwapRemove(slots: seq<Slot>, byConn: map<Conn, nat>, i: nat)
    requires i < |slots| && slots[i].conn !in byConn
    ensures CountUnreserved(SwapRemove(slots, i), byConn) == CountUnreserved(slots, byConn) - 1
  {
    CountUpdate(slots, byConn, i, slots[|slots| - 1]);
  }

  /** Slots before `i` are reserved, so all evictable ones are still ahead of the scan. */
  ghost predicate Skipped(s: Server, i: nat) {
    i <= |s.free| && forall j :: 0 <= j < i ==> s.free[j].conn in s.byConn
  }

  lemma {:induction false} NoneEvictable(slots: seq<Slot>, byConn: map<Conn, nat>)
    requires forall j :: 0 <= j < |slots| ==> slots[j].conn in byConn
    ensures CountUnreserved(slots, byConn) == 0
  {
    if slots != [] {
      NoneEvictable(slots[..|slots| - 1], byConn);
    }
  }

  /** `t` is `s` with the unreserved FREE connections `out` handed to the caller. */
  ghost predicate Evicted(id: nat, s: Server, t: Server, out: seq<Conn>) {
    && ServerInv(id, t) && All(t) == All(s)
    && t.byConn == s.byConn && t.reservations == s.reservations && t.retired == s.retired
    && t.used == s.used && t.status == s.status && s.owned <= t.owned
    && (forall c :: c in out ==> c !in s.byConn && c in ConnSet(s.free) && c in t.owned)
  }

  lemma EvictStep(id: nat, s: Server, i: nat)
    requires ServerInv(id, s) && Skipped(s, i) && i < |s.free| && s.free[i].conn !in s.byConn
    ensures var t := TakeFree(s, i, CreateEvict);
      ServerInv(id, t) && Skipped(t, i) && Evictable(t) == Evictable(s) - 1 && |t.free| == |s.free| - 1
  {
    TakeFreeKeeps(id, s, i, CreateEvict);
    CountSwapRemove(s.free, s.byConn, i);
  }

  lemma EvictOneMore(id: nat, s: Server, i: nat, t: Server, out: seq<Conn>)
    requires ServerInv(id, s) && i < |s.free| && s.free[i].conn !in s.byConn
    requires Evicted(id, TakeFree(s, i, CreateEvict), t, out)
    ensures Evicted(id, s, t, [s.free[i].conn] + out)
  {
    TakeFreeKeeps(id, s, i, CreateEvict);
    ConnSetSwapRemove(s.free, i);
  }

  lemma EvictedNothing(id: nat, s: Server)
    requires ServerInv(id, s)
    ensures Evicted(id, s, s, [])
  {
  }

  ghost predicate EvictsExactly(id: nat, s: Server, i: nat, n: nat) {
    var r := EvictFrom(s, i, n);
    Evicted(id, s, r.0, r.1) && |r.1| == n
  }

  /** The turn of the scan that evicts slot `i`, before turns that evict the others. */
  lemma EvictThis(id: nat, s: Server, i: nat, n: nat, t: Server)
    requires ServerInv(id, s) && i < |s.free| && n > 0 && s.free[i].conn !in s.byConn
    requires t == TakeFree(s, i, CreateEvict) && EvictsExactly(id, t, i, n - 1)
    ensures EvictsExactly(id, s, i, n)
  {
    var rest := EvictFrom(t, i, n - 1);
    EvictOneMore(id, s, i, rest.0, rest.1);
  }

  /** The scan evicts exactly the requested number and never a reserved connection. */
  lemma {:induction false} EvictFromKeeps(id: nat, s: Server, i: nat, n: nat)
    requires ServerInv(id, s) && Skipped(s, i) && n <= Evictable(s)
    ensures EvictsExactly(id, s, i, n)
    decreases |s.free| - i
  {
    if i == |s.free| {
      NoneEvictable(s.free, s.byConn);
    }
    if n == 0 {
      EvictedNothing(id, s);
    } else if s.free[i].conn in s.byConn {
      EvictFromKeeps(id, s, i + 1, n);
    } else {
      var t := TakeFree(s, i, CreateEvict);
      EvictStep(id, s, i);
      EvictFromKeeps(id, t, i, n - 1);
      EvictThis(id, s, i, n, t);
    }
  }

  /**
   * Eviction for a new backend is all-or-nothing in `required`: it succeeds exactly
   * when that many unreserved connections exist, then frees min(preferred, evictable)
   * of them; otherwise nothing moves. Reservations are never touched.
   */
  lemma EvictSound(id: nat, s: Server, preferred: nat, required: nat)
    requires ServerInv(id, s)
    ensures var (t, out, ok) := Evict(s, preferred, required);
      && ServerInv(id, t) && All(t) == All(s)
      && (ok <==> required <= preferred && required <= Evictable(s))
      && (!ok ==> t == s && out == [])
      && (ok ==> |out| == Min(preferred, Evictable(s)) && |out| >= required)
      && t.reservations == s.reservations && t.byConn == s.byConn && t.retired == s.retired
      && forall c :: c in out ==> c !in s.byConn && c in ConnSet(s.free) && c in t.owned
  {
    if required <= preferred && required <= Evictable(s) {
      EvictFromKeeps(id, s, 0, Min(preferred, Evictable(s)));
    }
  }

  // ----- cancelling and detaching

  /**
   * The reservation stage of `cancel_reader_pool_reservation`: a live reservation gives
   * its connection back, together with the key it must be stored under; a retirement
   * record is dropped.
   */
  function CancelRecord(s: Server, worker: nat, token: nat): (Server, Option<Slot>) {
    if token in s.reservations && s.reservations[token].worker == worker then
      var r := s.reservations[token];
      match FindSlot(s.free, r.conn)
      case None => (Forget(s, r.conn, Released), None)
      case Some(i) => (TakeFree(s, i, Released), Some(Slot(r.conn, r.key)))
    else if token in s.retired && s.retired[token].worker == worker then
      (s.(retired := s.retired - {token}), None)
    else (s, None)
  }

  lemma CancelRecordKeeps(id: nat, s: Server, worker: nat, token: nat)
    requires ServerInv(id, s)
    ensures var (n, back) := CancelRecord(s, worker, token);
      && ServerInv(id, n) && All(n) == All(s) && n.status == s.status
      && (forall w, t :: Owes(n, w, t) <==> Owes(s, w, t) && !(w == worker && t == token))
      && (back.Some? <==> token in s.reservations && s.reservations[token].worker == worker)
      && (back.Some? ==> back.value.conn in n.owned && back.value.key != NO_KEY)
  {
    if token in s.reservations && s.reservations[token].worker == worker {
      var r := s.reservations[token];
      assert Slot(r.conn, NO_KEY) in s.free;
      TakeFreeKeeps(id, s, FindSlot(s.free, r.conn).value, Released);
    }
  }

  /** The slot a reservation was just put into is the last one. */
  lemma ReservedSlotIsLast(id: nat, s: Server, c: Conn)
    requires ServerInv(id, s) && c in s.owned
    ensures c !in s.byConn && FindSlot(s.free + [Slot(c, NO_KEY)], c) == Some(|s.free|)
  {
    if c in s.byConn {
      ReservedIsFree(s, c);
    }
    ConnSetMember(s.free, c);
    var slots := s.free + [Slot(c, NO_KEY)];
    assert slots[|s.free|].conn == c;
    assert forall i :: 0 <= i < |s.free| ==> slots[i].conn == s.free[i].conn != c;
  }

  /** Taking a reserved connection out without retiring it leaves no trace of the reservation. */
  lemma TakeUndoesReserve(id: nat, s: Server, c: Conn, worker: nat, token: nat, key: MatchKey, reason: EndReason)
    requires ServerInv(id, s) && c in s.owned && token !in s.reservations && !IsRetirement(reason)
    ensures TakeFree(Reserve(s, c, worker, token, key), |s.free|, reason) == s
  {
    ReservedSlotIsLast(id, s, c);
    ForgetUndoesReserve(s, c, worker, token, key, reason);
    var n := Reserve(s, c, worker, token, key);
    assert SwapRemove(n.free, |s.free|) == s.free;
    assert n.owned + {c} == s.owned;
  }

  lemma ForgetUndoesReserve(s: Server, c: Conn, worker: nat, token: nat, key: MatchKey, reason: EndReason)
    requires c !in s.byConn && token !in s.reservations && !IsRetirement(reason)
    ensures Forget(Reserve(s, c, worker, token, key), c, reason) == PutFree(s, c, NO_KEY)
  {
    assert s.byConn[c := token] - {c} == s.byConn;
    assert s.reservations[token := Reservation(worker, c, key)] - {token} == s.reservations;
  }

  /** Cancelling undoes a reservation exactly, and names the key it was made under. */
  lemma CancelUndoesReserve(id: nat, s: Server, c: Conn, worker: nat, token: nat, key: MatchKey)
    requires ServerInv(id, s) && c in s.owned && token !in s.reservations
    ensures CancelRecord(Reserve(s, c, worker, token, key), worker, token) == (s, Some(Slot(c, key)))
  {
    ReservedSlotIsLast(id, s, c);
    TakeUndoesReserve(id, s, c, worker, token, key, Released);
  }

  /** Collecting on an online server is as if the connection had gone to USED under its key at once. */
  lemma CollectReturnsReserved(id: nat, s: Server, c: Conn, worker: nat, token: nat, key: MatchKey, pending: bool)
    requires ServerInv(id, s) && c in s.owned && token !in s.reservations && s.status == Online
    ensures TakeReservation(Reserve(s, c, worker, token, key), worker, token, pending) == (PutUsed(s, c, key), Got(c))
  {
    ReservedSlotIsLast(id, s, c);
    TakeUndoesReserve(id, s, c, worker, token, key, Acquired);
  }

  /** `polardb_retire_reservations_unlocked` for a retirement reason. */
  function RetireAll(s: Server, reason: EndReason): Server {
    var records := map t | t in s.reservations && t !in s.retired :: Retired(s.reservations[t].worker, reason);
    s.(retired := s.retired + records, reservations := map[], byConn := map[])
  }

  /** `detach_all_unlocked` on FREE. */
  function DetachFree(s: Server, reason: EndReason): Server
    decreases |s.free|
  {
    if s.free == [] then RetireAll(s, reason) else DetachFree(TakeFree(s, 0, reason), reason)
  }

  lemma NothingReserved(s: Server)
    requires Reserved(s) && s.free == []
    ensures s.byConn == map[] && s.reservations == map[]
  {
    forall c ensures c !in s.byConn {
    }
    forall t ensures t !in s.reservations {
    }
  }

  /** Detaching empties FREE into the caller's hands and owes every waiting worker a retirement. */
  lemma {:induction false} DetachFreeKeeps(id: nat, s: Server, reason: EndReason)
    requires ServerInv(id, s) && IsRetirement(reason)
    ensures var n := DetachFree(s, reason);
      && ServerInv(id, n) && All(n) == All(s) && n.free == [] && n.reservations == map[] && n.used == s.used
      && forall w, t :: Owes(n, w, t) <==> Owes(s, w, t)
    decreases |s.free|
  {
    if s.free == [] {
      NothingReserved(s);
      assert RetireAll(s, reason).retired == s.retired;
    } else {
      TakeFreeKeeps(id, s, 0, reason);
      DetachFreeKeeps(id, TakeFree(s, 0, reason), reason);
    }
  }

  // ----- operations that concern one server alone

  /** What happens to a server's pool without touching any request. */
  datatype PoolOp =
    | TakeSlot(i: nat, keepKey: bool)               // exact, reset-compatible or ping take
    | AddUsed(c: Conn, key: MatchKey)               // add_used_matching_connection
    | EvictFree(preferred: nat, required: nat)      // evict_unreserved_free_for_create
    | DropFree(i: nat, reason: EndReason)           // idle trim, max age, explicit removal
    | DropUsed(c: Conn)                             // remove_used_connection
    | SetStatus(status: Status)                     // set_status

  /** An exact-key take only looks at the slot's key; the other takes skip reserved connections. */
  predicate Takeable(s: Server, i: nat) {
    s.status == Online && i < |s.free| && (s.free[i].key != NO_KEY || s.free[i].conn !in s.byConn)
  }

  function StatusChange(s: Server, status: Status): Server {
    var n := s.(status := status);
    if status == OfflineHard then DetachFree(n, ServerOffline) else n
  }

  function OnPool(s: Server, op: PoolOp): Server {
    match op
    case TakeSlot(i, keepKey) =>
      if Takeable(s, i)
      then PutUsed(TakeFree(s, i, Acquired), s.free[i].conn, if keepKey then s.free[i].key else NO_KEY) else s
    case AddUsed(c, key) => if c in s.owned && s.status == Online then PutUsed(s, c, key) else s
    case EvictFree(preferred, required) => Evict(s, preferred, required).0
    case DropFree(i, reason) => if i < |s.free| && IsRetirement(reason) then TakeFree(s, i, reason) else s
    case DropUsed(c) => if FindSlot(s.used, c).Some? then TakeUsed(s, FindSlot(s.used, c).value) else s
    case SetStatus(status) => StatusChange(s, status)
  }

  /** Same connections, each in one place, and the same claims. */
  ghost predicate SameClaims(id: nat, s: Server, n: Server) {
    ServerInv(id, n) && All(n) == All(s) && forall w, t :: Owes(n, w, t) <==> Owes(s, w, t)
  }

  /** Taking an unreserved FREE connection into USED changes no one's claim. */
  lemma TakeUnreserved(id: nat, s: Server, i: nat, key: MatchKey)
    requires ServerInv(id, s) && i < |s.free| && s.free[i].conn !in s.byConn
    ensures SameClaims(id, s, PutUsed(TakeFree(s, i, Acquired), s.free[i].conn, key))
  {
    var f := TakeFree(s, i, Acquired);
    TakeFreeKeeps(id, s, i, Acquired);
    PutUsedKeeps(id, f, s.free[i].conn, key);
    var n := PutUsed(f, s.free[i].conn, key);
    forall w, t ensures Owes(n, w, t) <==> Owes(s, w, t) {
      assert Owes(n, w, t) <==> Owes(f, w, t);
    }
  }

  lemma TakeSlotKeeps(id: nat, s: Server, i: nat, keepKey: bool)
    requires ServerInv(id, s)
    ensures SameClaims(id, s, OnPool(s, TakeSlot(i, keepKey)))
  {
    if Takeable(s, i) {
      if s.free[i].key != NO_KEY {
        KeyedSlotIsUnreserved(id, s, i);
      }
      TakeUnreserved(id, s, i, if keepKey then s.free[i].key else NO_KEY);
    }
  }

  lemma StatusKeeps(id: nat, s: Server, status: Status)
    requires ServerInv(id, s)
    ensures SameClaims(id, s, StatusChange(s, status))
  {
    var n := s.(status := status);
    if status == OfflineHard {
      DetachFreeKeeps(id, n, ServerOffline);
    }
    forall w, t ensures Owes(n, w, t) <==> Owes(s, w, t) {
    }
  }

  lemma AddUsedKeeps(id: nat, s: Server, c: Conn, key: MatchKey)
    requires ServerInv(id, s)
    ensures SameClaims(id, s, OnPool(s, AddUsed(c, key)))
  {
    if c in s.owned {
      PutUsedKeeps(id, s, c, key);
    }
  }

  lemma DropFreeKeeps(id: nat, s: Server, i: nat, reason: EndReason)
    requires ServerInv(id, s)
    ensures SameClaims(id, s, OnPool(s, DropFree(i, reason)))
  {
    if i < |s.free| {
      TakeFreeKeeps(id, s, i, reason);
    }
  }

  lemma DropUsedKeeps(id: nat, s: Server, c: Conn)
    requires ServerInv(id, s)
    ensures SameClaims(id, s, OnPool(s, DropUsed(c)))
  {
    if FindSlot(s.used, c).Some? {
      TakeUsedKeeps(id, s, FindSlot(s.used, c).value);
    }
  }

  lemma EvictKeeps(id: nat, s: Server, preferred: nat, required: nat)
    requires ServerInv(id, s)
    ensures SameClaims(id, s, OnPool(s, EvictFree(preferred, required)))
  {
    EvictSound(id, s, preferred, required);
  }

  lemma OnPoolKeeps(id: nat, s: Server, op: PoolOp)
    requires ServerInv(id, s)
    ensures SameClaims(id, s, OnPool(s, op))
  {
    match op
    case TakeSlot(i, keepKey) => TakeSlotKeeps(id, s, i, keepKey);
    case AddUsed(c, key) => AddUsedKeeps(id, s, c, key);
    case EvictFree(preferred, required) => EvictKeeps(id, s, preferred, required);
    case DropFree(i, reason) => DropFreeKeeps(id, s, i, reason);
    case DropUsed(c) => DropUsedKeeps(id, s, c);
    case SetStatus(status) => StatusKeeps(id, s, status);
  }
}
