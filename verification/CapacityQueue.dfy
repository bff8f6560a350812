/** A hostgroup's queued capacity requests: three indexes over one arrival order. */
module CapacityQueue {
  import opened Common
  import opened PoolTypes

  /** `worker` and `token` identify the waiter; `key` is the pool key it needs. */
  datatype Request = Request(worker: nat, token: nat, key: MatchKey)

  /** The index value no worker ever has (`UINT_MAX`). */
  const NO_WORKER: nat := 0xFFFF_FFFF

  /** No two queued requests share a token or a worker. */
  ghost predicate Distinct(q: seq<Request>) {
    forall i, j :: 0 <= i < j < |q| ==> q[i].token != q[j].token && q[i].worker != q[j].worker
  }

  function RemoveAt(q: seq<Request>, i: nat): (r: seq<Request>)
    requires i < |q|
    ensures |r| == |q| - 1
    ensures forall j :: 0 <= j < |r| ==> r[j] == if j < i then q[j] else q[j + 1]
  {
    q[..i] + q[i + 1..]
  }

  /** What the worker exclusion and the lag policy leave eligible. */
  predicate Wants(r: Request, k: MatchKey, excluded: nat, eligible: set<nat>) {
    r.key == k && r.worker != excluded && r.token in eligible
  }

  /** `i` is the oldest queued request that may have a connection keyed `k`. */
  ghost predicate IsFirstMatch(q: seq<Request>, i: nat, k: MatchKey, excluded: nat, eligible: set<nat>) {
    && i < |q| && Wants(q[i], k, excluded, eligible)
    && forall j :: 0 <= j < i ==> !Wants(q[j], k, excluded, eligible)
  }

  /** The request a returned connection keyed `k` is given to, if any. */
  function FirstMatch(q: seq<Request>, k: MatchKey, excluded: nat, eligible: set<nat>): (at: Option<nat>)
    ensures at.Some? ==> IsFirstMatch(q, at.value, k, excluded, eligible)
    ensures at.None? ==> forall j :: 0 <= j < |q| ==> !Wants(q[j], k, excluded, eligible)
  {
    if q == [] then None
    else if Wants(q[0], k, excluded, eligible) then Some(0)
    else
      match FirstMatch(q[1..], k, excluded, eligible)
      case None => None
      case Some(i) => Some(i + 1)
  }

  // ----- the keyed lists

  /** The keyed list: the requests for `k`, in arrival order. */
  ghost function Bucket(q: seq<Request>, k: MatchKey): seq<Request> {
    if q == [] then []
    else Bucket(q[..|q| - 1], k) + if q[|q| - 1].key == k then [q[|q| - 1]] else []
  }

  function Lookup(byKey: map<MatchKey, seq<Request>>, k: MatchKey): seq<Request> {
    if k in byKey then byKey[k] else []
  }

  ghost predicate KeyIndex(byKey: map<MatchKey, seq<Request>>, q: seq<Request>) {
    && (forall k {:trigger Lookup(byKey, k)} :: Lookup(byKey, k) == Bucket(q, k))
    && (forall k :: k in byKey ==> byKey[k] != [])
  }

  /** A bucket with one request erased from it. */
  function Without(b: seq<Request>, r: Request): seq<Request> {
    if b == [] then []
    else Without(b[..|b| - 1], r) + if b[|b| - 1] == r then [] else [b[|b| - 1]]
  }

  lemma BucketAppend(q: seq<Request>, r: Request, k: MatchKey)
    ensures Bucket(q + [r], k) == Bucket(q, k) + if r.key == k then [r] else []
  {
    assert (q + [r])[..|q|] == q;
  }

  lemma {:induction false} BucketMember(q: seq<Request>, k: MatchKey, r: Request)
    ensures r in Bucket(q, k) <==> r in q && r.key == k
  {
    if q != [] {
      var n := |q| - 1;
      assert q == q[..n] + [q[n]];
      BucketMember(q[..n], k, r);
    }
  }

  lemma WithoutAppend(b: seq<Request>, last: Request, r: Request)
    ensures Without(b + [last], r) == Without(b, r) + if last == r then [] else [last]
  {
    assert (b + [last])[..|b|] == b;
  }

  lemma {:induction false} WithoutAbsent(b: seq<Request>, r: Request)
    requires r !in b
    ensures Without(b, r) == b
  {
    if b != [] {
      assert b == b[..|b| - 1] + [b[|b| - 1]];
      WithoutAbsent(b[..|b| - 1], r);
    }
  }

  lemma BucketRemoveLast(q: seq<Request>, k: MatchKey)
    requires q != [] && Distinct(q)
    ensures var n := |q| - 1;
      Bucket(RemoveAt(q, n), k) == if q[n].key == k then Without(Bucket(q, k), q[n]) else Bucket(q, k)
  {
    var n := |q| - 1;
    var front := q[..n];
    assert RemoveAt(q, n) == front;
    BucketMember(front, k, q[n]);
    WithoutAbsent(Bucket(front, k), q[n]);
    WithoutAppend(Bucket(front, k), q[n], q[n]);
    assert Bucket(front, k) + [] == Bucket(front, k);
  }

  lemma RemoveBeforeLast(q: seq<Request>, i: nat)
    requires i < |q| - 1
    ensures RemoveAt(q, i) == RemoveAt(q[..|q| - 1], i) + [q[|q| - 1]]
  {
  }

  /** Removing one request removes it from its own bucket and touches no other. */
  lemma {:induction false} BucketRemove(q: seq<Request>, i: nat, k: MatchKey)
    requires i < |q| && Distinct(q)
    ensures Bucket(RemoveAt(q, i), k) == if q[i].key == k then Without(Bucket(q, k), q[i]) else Bucket(q, k)
  {
    var n := |q| - 1;
    if i == n {
      BucketRemoveLast(q, k);
    } else {
      var front := q[..n];
      assert front[i] == q[i] && q[i] != q[n];
      BucketRemove(front, i, k);
      RemoveBeforeLast(q, i);
      BucketAppend(RemoveAt(front, i), q[n], k);
      WithoutAppend(Bucket(front, k), q[n], q[i]);
      assert Bucket(front, k) + [] == Bucket(front, k);
      assert Without(Bucket(front, k), q[i]) + [] == Without(Bucket(front, k), q[i]);
    }
  }

  /** The keyed lists after erasing `r`; a list that becomes empty is dropped. */
  function Erased(byKey: map<MatchKey, seq<Request>>, r: Request): map<MatchKey, seq<Request>> {
    var rest := Without(Lookup(byKey, r.key), r);
    if rest == [] then byKey - {r.key} else byKey[r.key := rest]
  }

  lemma KeyIndexAppend(byKey: map<MatchKey, seq<Request>>, q: seq<Request>, r: Request)
    requires KeyIndex(byKey, q)
    ensures KeyIndex(byKey[r.key := Lookup(byKey, r.key) + [r]], q + [r])
  {
    forall k ensures Lookup(byKey[r.key := Lookup(byKey, r.key) + [r]], k) == Bucket(q + [r], k) {
      BucketAppend(q, r, k);
      assert Lookup(byKey, k) == Bucket(q, k);
    }
  }

  lemma KeyIndexRemove(byKey: map<MatchKey, seq<Request>>, q: seq<Request>, i: nat)
    requires KeyIndex(byKey, q) && i < |q| && Distinct(q)
    ensures KeyIndex(Erased(byKey, q[i]), RemoveAt(q, i))
  {
    var next := Erased(byKey, q[i]);
    forall k ensures Lookup(next, k) == Bucket(RemoveAt(q, i), k) {
      BucketRemove(q, i, k);
      assert Lookup(byKey, k) == Bucket(q, k);
    }
  }

  // ----- the worker and token indexes

  ghost predicate TokenIndex(byToken: map<nat, Request>, q: seq<Request>) {
    && (forall r :: r in q ==> r.token in byToken && byToken[r.token] == r)
    && (forall t :: t in byToken ==> byToken[t] in q && byToken[t].token == t)
  }

  ghost predicate WorkerIndex(byWorker: map<nat, Request>, q: seq<Request>) {
    && (forall r :: r in q ==> r.worker in byWorker && byWorker[r.worker] == r)
    && (forall w :: w in byWorker ==> byWorker[w] in q && byWorker[w].worker == w)
  }

  lemma RemoveAtKeeps(q: seq<Request>, i: nat)
    requires i < |q| && Distinct(q)
    ensures Distinct(RemoveAt(q, i))
    ensures forall r :: r in RemoveAt(q, i) <==> r in q && r != q[i]
    ensures forall r :: r in RemoveAt(q, i) ==> r.token != q[i].token && r.worker != q[i].worker
  {
    var p := RemoveAt(q, i);
    forall r | r in q && r != q[i] ensures r in p {
      var j :| 0 <= j < |q| && q[j] == r;
      assert p[if j < i then j else j - 1] == r;
    }
  }

  /** Erasing one request keeps both secondary indexes in step with the queue. */
  lemma RemoveKeepsIndexes(q: seq<Request>, byWorker: map<nat, Request>, byToken: map<nat, Request>, i: nat)
    requires i < |q| && Distinct(q) && WorkerIndex(byWorker, q) && TokenIndex(byToken, q)
    ensures Distinct(RemoveAt(q, i))
    ensures WorkerIndex(byWorker - {q[i].worker}, RemoveAt(q, i)) && TokenIndex(byToken - {q[i].token}, RemoveAt(q, i))
  {
    RemoveAtKeeps(q, i);
  }

  lemma {:induction false} TokenIndexSize(q: seq<Request>, byToken: map<nat, Request>)
    requires Distinct(q) && TokenIndex(byToken, q)
    ensures |byToken| == |q|
  {
    if q == [] {
      assert byToken == map[];
    } else {
      var n := |q| - 1;
      assert RemoveAt(q, n) == q[..n];
      RemoveAtKeeps(q, n);
      TokenIndexSize(q[..n], byToken - {q[n].token});
      assert byToken.Keys == (byToken - {q[n].token}).Keys + {q[n].token};
    }
  }

  lemma {:induction false} WorkerIndexSize(q: seq<Request>, byWorker: map<nat, Request>)
    requires Distinct(q) && WorkerIndex(byWorker, q)
    ensures |byWorker| == |q|
  {
    if q == [] {
      assert byWorker == map[];
    } else {
      var n := |q| - 1;
      assert RemoveAt(q, n) == q[..n];
      RemoveAtKeeps(q, n);
      WorkerIndexSize(q[..n], byWorker - {q[n].worker});
      assert byWorker.Keys == (byWorker - {q[n].worker}).Keys + {q[n].worker};
    }
  }

  // ----- the request set

  /** The three indexes and the fast counter describe one and the same set of requests. */
  ghost predicate Consistent(byKey: map<MatchKey, seq<Request>>, byWorker: map<nat, Request>,
                             byToken: map<nat, Request>, count: nat, q: seq<Request>)
  {
    && Distinct(q) && count == |q|
    && KeyIndex(byKey, q) && WorkerIndex(byWorker, q) && TokenIndex(byToken, q)
  }

  lemma AppendKeepsConsistent(byKey: map<MatchKey, seq<Request>>, byWorker: map<nat, Request>,
                              byToken: map<nat, Request>, count: nat, q: seq<Request>, r: Request)
    requires Consistent(byKey, byWorker, byToken, count, q) && r.token !in byToken && r.worker !in byWorker
    ensures Consistent(byKey[r.key := Lookup(byKey, r.key) + [r]], byWorker[r.worker := r], byToken[r.token := r],
                       count + 1, q + [r])
  {
    KeyIndexAppend(byKey, q, r);
  }

  lemma EraseKeepsConsistent(byKey: map<MatchKey, seq<Request>>, byWorker: map<nat, Request>,
                             byToken: map<nat, Request>, count: nat, q: seq<Request>, i: nat)
    requires Consistent(byKey, byWorker, byToken, count, q) && i < |q|
    ensures count > 0
    ensures Consistent(Erased(byKey, q[i]), byWorker - {q[i].worker}, byToken - {q[i].token}, count - 1, RemoveAt(q, i))
  {
    KeyIndexRemove(byKey, q, i);
    RemoveKeepsIndexes(q, byWorker, byToken, i);
  }

  class CapacityRequests {
    var byKey: map<MatchKey, seq<Request>>
    var byWorker: map<nat, Request>
    var byToken: map<nat, Request>
    /** `polardb_reader_pool_capacity_request_count_fast`. */
    var count: nat
    /** The requests in arrival order; the three indexes are views of it. */
    ghost var queue: seq<Request>

    ghost predicate Valid()
      reads this
    {
      Consistent(byKey, byWorker, byToken, count, queue)
    }

    constructor ()
      ensures Valid() && queue == []
    {
      byKey, byWorker, byToken, count, queue := map[], map[], map[], 0, [];
    }

    /** Queue one request unless it is malformed, replica-only, or a duplicate. */
    method Register(worker: nat, token: nat, scopeHash: nat, key: MatchKey, requireReplica: bool) returns (ok: bool)
      requires Valid()
      modifies this
      ensures Valid()
      ensures ok <==> (
        && worker != NO_WORKER && token != 0 && scopeHash != 0 && key != NO_KEY && !requireReplica
        && forall r :: r in old(queue) ==> r.token != token && r.worker != worker)
      ensures queue == old(queue) + if ok then [Request(worker, token, key)] else []
    {
      if worker == NO_WORKER || token == 0 || scopeHash == 0 || key == NO_KEY || requireReplica {
        return false;
      }
      if token in byToken || worker in byWorker {
        return false;
      }
      var r := Request(worker, token, key);
      AppendKeepsConsistent(byKey, byWorker, byToken, count, queue, r);
      byKey, byWorker, byToken, count, queue :=
        byKey[key := Lookup(byKey, key) + [r]], byWorker[worker := r], byToken[token := r], count + 1, queue + [r];
      return true;
    }

    /** The check that makes the source abort the process when it fails. */
    ghost predicate IndexesMatch(r: Request)
      reads this
    {
      && r.key in byKey && r.worker in byWorker && r.token in byToken
      && byWorker[r.worker] == r && byToken[r.token] == r
      && count != 0 && |byWorker| == count && |byToken| == count
    }

    /** Every queued request passes that check, so the abort is unreachable. */
    lemma QueuedIndexesMatch(r: Request)
      requires Valid() && r in queue
      ensures IndexesMatch(r)
    {
      TokenIndexSize(queue, byToken);
      WorkerIndexSize(queue, byWorker);
      BucketMember(queue, r.key, r);
      assert Lookup(byKey, r.key) == Bucket(queue, r.key);
    }

    method Replace(keys: map<MatchKey, seq<Request>>, workers: map<nat, Request>, tokens: map<nat, Request>, n: nat,
                   ghost q: seq<Request>)
      requires Consistent(keys, workers, tokens, n, q)
      modifies this
      ensures Valid() && queue == q
    {
      byKey, byWorker, byToken, count, queue := keys, workers, tokens, n, q;
    }

    method EraseAt(r: Request, ghost at: nat)
      requires Valid() && at < |queue| && queue[at] == r
      modifies this
      ensures Valid() && queue == RemoveAt(old(queue), at)
    {
      EraseKeepsConsistent(byKey, byWorker, byToken, count, queue, at);
      ghost var rest := RemoveAt(queue, at);
      var keys := Erased(byKey, r);
      Replace(keys, byWorker - {r.worker}, byToken - {r.token}, count - 1, rest);
    }

    /** Erase one queued request from all three indexes. */
    method Erase(r: Request) returns (ghost at: nat)
      requires Valid() && r in queue
      modifies this
      ensures Valid() && at < |old(queue)| && old(queue)[at] == r && queue == RemoveAt(old(queue), at)
    {
      at :| 0 <= at < |queue| && queue[at] == r;
      EraseAt(r, at);
    }

    /**
     * Consume the oldest request for `key` that is neither excluded nor rejected by
     * the lag policy. `resolves` is the outcome of the topology lookup that runs
     * between the two scans.
     */
    method TakeMatching(key: MatchKey, excluded: nat, eligible: set<nat>, resolves: bool)
      returns (r: Option<Request>, ghost at: nat)
      requires Valid()
      modifies this
      ensures Valid()
      ensures r.None? ==> queue == old(queue)
      ensures r.None? && resolves && key != NO_KEY ==> forall j :: 0 <= j < |queue| ==>
        !(queue[j].key == key && queue[j].worker != excluded && queue[j].token in eligible)
      ensures r.Some? ==> resolves && IsFirstMatch(old(queue), at, key, excluded, eligible)
      ensures r.Some? ==> r.value.key == key && r.value.worker != excluded && r.value.token in eligible
      ensures r.Some? ==> r.value == old(queue)[at] && queue == RemoveAt(old(queue), at)
    {
      at := 0;
      if key == NO_KEY || count == 0 || !resolves {
        return None, at;
      }
      var bucket := Lookup(byKey, key);
      var i := 0;
      while i < |bucket| && !Wants(bucket[i], key, excluded, eligible)
        invariant 0 <= i <= |bucket|
        invariant forall j :: 0 <= j < i ==> !Wants(bucket[j], key, excluded, eligible)
      {
        i := i + 1;
      }
      ScanBucketRefinesQueue(queue, key, excluded, eligible, i);
      if i == |bucket| {
        return None, at;
      }
      BucketMember(queue, key, bucket[i]);
      at := Erase(bucket[i]);
      r := Some(bucket[i]);
    }

    /** Only the worker that registered the token can cancel it. */
    method Cancel(worker: nat, token: nat) returns (ok: bool, ghost at: nat)
      requires Valid()
      modifies this
      ensures Valid()
      ensures ok <==> exists r :: r in old(queue) && r.worker == worker && r.token == token
      ensures !ok ==> queue == old(queue)
      ensures ok ==> at < |old(queue)| && old(queue)[at].worker == worker && old(queue)[at].token == token
      ensures ok ==> queue == RemoveAt(old(queue), at)
    {
      at := 0;
      if worker !in byWorker || byWorker[worker].token != token {
        return false, at;
      }
      at := Erase(byWorker[worker]);
      ok := true;
    }

    method Has(worker: nat, token: nat) returns (b: bool)
      requires Valid()
      ensures b <==> exists r :: r in queue && r.worker == worker && r.token == token
    {
      b := worker in byWorker && byWorker[worker].token == token;
    }
  }

  /** Scanning one keyed list finds the oldest matching request of the whole queue. */
  lemma {:induction false} ScanBucketRefinesQueue(q: seq<Request>, k: MatchKey, excluded: nat, eligible: set<nat>,
                                                  i: nat)
    requires Distinct(q) && i <= |Bucket(q, k)|
    requires forall j :: 0 <= j < i ==> !Wants(Bucket(q, k)[j], k, excluded, eligible)
    requires i < |Bucket(q, k)| ==> Wants(Bucket(q, k)[i], k, excluded, eligible)
    ensures i == |Bucket(q, k)| ==> forall j :: 0 <= j < |q| ==> !Wants(q[j], k, excluded, eligible)
    ensures i < |Bucket(q, k)| ==>
      forall at: nat :: at < |q| && q[at] == Bucket(q, k)[i] ==> IsFirstMatch(q, at, k, excluded, eligible)
  {
    if q != [] {
      var n := |q| - 1;
      assert q == q[..n] + [q[n]];
      var front := Bucket(q[..n], k);
      BucketAppend(q[..n], q[n], k);
      if i <= |front| {
        assert forall j :: 0 <= j < |front| ==> Bucket(q, k)[j] == front[j];
        if i < |front| {
          ScanBucketRefinesQueue(q[..n], k, excluded, eligible, i);
          BucketMember(q[..n], k, front[i]);
        } else {
          ScanBucketRefinesQueue(q[..n], k, excluded, eligible, i);
        }
      } else {
        assert i == |front| + 1 && Bucket(q, k)[|front|] == q[n];
        assert forall j :: 0 <= j < |front| ==> Bucket(q, k)[j] == front[j];
        ScanBucketRefinesQueue(q[..n], k, excluded, eligible, |front|);
      }
    }
  }
}
