/** One server's FREE or USED list with its exact-key index. */
module ConnectionList {
  import opened Common
  import opened PoolTypes

  type Index = map<MatchKey, seq<Conn>>

  /** `c` is listed exactly once in the whole index, under the non-empty key `k`. */
  ghost predicate OnlyUnder(index: Index, c: Conn, k: MatchKey) {
    && k != NO_KEY && k in index && multiset(index[k])[c] == 1
    && forall k2 :: k2 in index && k2 != NO_KEY && k2 != k ==> c !in index[k2]
  }

  ghost predicate Unlisted(index: Index, c: Conn) {
    forall k :: k in index && k != NO_KEY ==> c !in index[k]
  }

  /** Each connection's stored position is its real index in the array. */
  ghost predicate Positioned(conns: seq<Conn>, position: map<Conn, nat>) {
    forall i :: 0 <= i < |conns| ==> conns[i] in position && position[conns[i]] == i
  }

  /** Every bucket entry sits in the list under the bucket's key. */
  ghost predicate EntriesAreSlots(index: Index, conns: seq<Conn>, keys: seq<MatchKey>, position: map<Conn, nat>)
    requires |keys| == |conns|
  {
    forall k, c {:trigger c in index[k]} :: k in index && c in index[k] ==>
      k != NO_KEY && c in position && position[c] < |conns| && conns[position[c]] == c && keys[position[c]] == k
  }

  /** Every keyed slot other than those in `hidden` is listed in its bucket. */
  ghost predicate SlotsAreEntries(index: Index, conns: seq<Conn>, keys: seq<MatchKey>, hidden: set<Conn>)
    requires |keys| == |conns|
  {
    forall i :: 0 <= i < |conns| && keys[i] != NO_KEY && conns[i] !in hidden ==>
      keys[i] in index && conns[i] in index[keys[i]]
  }

  ghost predicate BucketsNoDup(index: Index) {
    forall k :: k in index ==> NoDup(index[k])
  }

  ghost function EmptyBuckets(index: Index): set<MatchKey> {
    set k | k in index && index[k] == []
  }

  ghost predicate Carries(keys: seq<MatchKey>, k: MatchKey) {
    exists i :: 0 <= i < |keys| && keys[i] == k
  }

  /**
   * The positional keys after a repair: as they were when their number was right;
   * otherwise USED keeps the prefix it has, and FREE gives a connection a key exactly when
   * it is unreserved and the old buckets named it once, under that key.
   */
  ghost predicate Mended(used: bool, conns: seq<Conn>, index: Index, keys: seq<MatchKey>, reserved: set<Conn>,
                         mended: seq<MatchKey>) {
    && |mended| == |conns|
    && (|keys| == |conns| ==> mended == keys)
    && (|keys| != |conns| && used ==>
         forall i :: 0 <= i < |conns| ==> mended[i] == if i < |keys| then keys[i] else NO_KEY)
    && (|keys| != |conns| && !used ==>
         forall i, k {:trigger OnlyUnder(index, conns[i], k)} :: 0 <= i < |conns| && k != NO_KEY ==>
           (mended[i] == k <==> conns[i] !in reserved && OnlyUnder(index, conns[i], k)))
  }

  /** Positions, positional keys and index describe the list, except that `hidden` is out of the index. */
  ghost predicate ListOk(used: bool, conns: seq<Conn>, keys: seq<MatchKey>, index: Index, empty: nat,
                         position: map<Conn, nat>, hidden: set<Conn>)
  {
    && NoDup(conns) && |keys| == |conns| && Positioned(conns, position)
    && (used ==> index == map[] && empty == 0)
    && (!used ==> EntriesAreSlots(index, conns, keys, position) && SlotsAreEntries(index, conns, keys, hidden))
    && BucketsNoDup(index)
    && (forall k, c {:trigger c in index[k]} :: k in index && c in index[k] ==> c !in hidden)
    && empty == |EmptyBuckets(index)|
  }

  /**
   * The exact-key index refines a linear scan of the list: a bucket lookup finds
   * something exactly when some position carries the key, and what it finds is
   * the set of connections at those positions.
   */
  lemma LookupRefinesScan(index: Index, conns: seq<Conn>, keys: seq<MatchKey>, position: map<Conn, nat>, k: MatchKey)
    requires |keys| == |conns| && k != NO_KEY
    requires Positioned(conns, position) && EntriesAreSlots(index, conns, keys, position)
    requires SlotsAreEntries(index, conns, keys, {})
    ensures (k in index && index[k] != []) <==> Carries(keys, k)
    ensures forall i :: 0 <= i < |conns| ==> (keys[i] == k <==> k in index && conns[i] in index[k])
  {
    if k in index && index[k] != [] {
      var c := index[k][0];
      assert c in index[k];
      assert keys[position[c]] == k;
    }
    if Carries(keys, k) {
      var i :| 0 <= i < |keys| && keys[i] == k;
      assert conns[i] in index[k];
    }
  }

  class SrvConnList {
    const used: bool
    /** Server connection limit, which also bounds the cached empty buckets. */
    var limit: nat
    var conns: seq<Conn>
    /** `match_keys_by_position`. */
    var keys: seq<MatchKey>
    /** `matching_by_key`. */
    var index: Index
    var emptyCount: nat
    /** `polardb_core_pool_position` of the connections that were in this list. */
    var position: map<Conn, nat>
    /** The atomic `pool_free_count` or `pool_used_count`. */
    var count: nat

    /** All but the connections in `hidden` are indexed; this is what removal works on. */
    ghost predicate ValidExcept(hidden: set<Conn>)
      reads this
    {
      count == |conns| && ListOk(used, conns, keys, index, emptyCount, position, hidden)
    }

    ghost predicate Valid()
      reads this
    {
      ValidExcept({})
    }

    /** Length mismatches, which the source repairs before it does anything else, are the only disorder. */
    ghost predicate Mendable()
      reads this
    {
      && NoDup(conns) && count == |conns| && (|keys| == |conns| ==> Valid())
      && emptyCount == |EmptyBuckets(index)| && (used ==> index == map[])
    }

    /** The list as one sequence of slots. */
    ghost function View(): seq<Slot>
      reads this
      requires |keys| == |conns|
    {
      Slots(conns, keys)
    }

    /** The server's connection limit was changed. */
    method SetLimit(n: nat)
      modifies this`limit
      ensures limit == n
    {
      limit := n;
    }

    constructor (isUsed: bool, connectionLimit: nat)
      ensures Valid() && conns == [] && keys == [] && used == isUsed && limit == connectionLimit
    {
      used, limit := isUsed, connectionLimit;
      conns, keys, index, emptyCount, position, count := [], [], map[], 0, map[], 0;
      new;
      assert EmptyBuckets(index) == {};
    }

    /** The stored position is only a hint: a stale one is detected and replaced. */
    method FindIdx(c: Conn) returns (idx: int)
      modifies this`position
      ensures idx >= 0 ==> idx < |conns| && conns[idx] == c
      ensures idx < 0 <==> c !in conns
      ensures position == old(position) || (c in conns && position == old(position)[c := idx])
      ensures old(Valid()) ==> Valid() && position == old(position)
    {
      if c in position && position[c] < |conns| && conns[position[c]] == c {
        return position[c];
      }
      for i := 0 to |conns|
        invariant c !in conns[..i]
      {
        if conns[i] == c {
          assert old(Valid()) ==> conns[i] in old(position);
          position := position[c := i];
          return i;
        }
      }
      return -1;
    }

    /** A bucket just became empty: keep it cached below the limit, else erase it. */
    method LimitEmptyBuckets(k: MatchKey)
      requires k in index && index[k] == []
      modifies this`index, this`emptyCount
      ensures index == old(index) || index == old(index) - {k}
      ensures emptyCount == old(emptyCount) + if k in index then 1 else 0
      ensures k in index <==> old(emptyCount) < limit
    {
      if emptyCount < limit {
        emptyCount := emptyCount + 1;
      } else {
        index := index - {k};
      }
    }

    /** Drop every cached empty bucket; the count always equals what is pruned. */
    method PruneEmptyBuckets()
      requires !used && emptyCount == |EmptyBuckets(index)|
      modifies this`index, this`emptyCount
      ensures emptyCount == 0 && EmptyBuckets(index) == {}
      ensures forall k :: k in index <==> k in old(index) && old(index)[k] != []
      ensures forall k :: k in index ==> index[k] == old(index)[k]
      ensures old(Valid()) ==> Valid()
    {
      var kept: Index := map k | k in index && index[k] != [] :: index[k];
      assert EmptyBuckets(kept) == {};
      index, emptyCount := kept, 0;
    }

    /** Repair if needed, then take one connection out of the index; an absent one changes nothing more. */
    method Unindex(c: Conn, reserved: set<Conn>)
      requires !used && Mendable()
      modifies this`keys, this`index, this`emptyCount, this`position
      ensures ValidExcept(if c in conns then {c} else {})
      ensures Mended(used, conns, old(index), old(keys), reserved, keys)
    {
      EnsureConsistent(reserved);
      var i := FindIdx(c);
      if i >= 0 {
        UnindexSlot(c);
      }
    }

    method UnindexSlot(c: Conn)
      requires !used && Valid() && c in conns
      modifies this`index, this`emptyCount
      ensures ValidExcept({c})
    {
      var i := position[c];
      if keys[i] == NO_KEY {
        return;
      }
      var k := keys[i];
      var bucket := index[k];
      var j :| 0 <= j < |bucket| && bucket[j] == c;
      UnindexKeeps(conns, keys, index, emptyCount, position, i, j);
      index := index[k := SwapRemove(bucket, j)];
      if index[k] == [] {
        LimitEmptyBuckets(k);
      }
    }

    /** Append a connection; `NO_KEY` stores it keyless, out of reach of exact lookup. */
    method Add(c: Conn, key: MatchKey, reserved: set<Conn>)
      requires Mendable() && c !in conns
      modifies this`conns, this`keys, this`index, this`emptyCount, this`position, this`count
      ensures Valid() && conns == old(conns) + [c] && keys[|old(conns)|] == key
      ensures Mended(used, old(conns), old(index), old(keys), reserved, keys[..|old(conns)|])
      ensures old(|keys| == |conns|) ==> View() == old(View()) + [Slot(c, key)]
    {
      EnsureConsistent(reserved);
      ghost var mended := keys;
      SlotsAppend(conns, keys, c, key);
      AddSlot(c, key);
      assert keys[..|old(conns)|] == mended;
    }

    method AddSlot(c: Conn, key: MatchKey)
      requires Valid() && c !in conns
      modifies this`conns, this`keys, this`index, this`emptyCount, this`position, this`count
      ensures Valid() && conns == old(conns) + [c] && keys == old(keys) + [key]
    {
      var buckets, empty := index, emptyCount;
      if key != NO_KEY && !used {
        if key in index && index[key] == [] {
          assert key in EmptyBuckets(index);
          empty := empty - 1;
        }
        buckets := buckets[key := (if key in index then index[key] else []) + [c]];
      }
      AppendKeeps(used, conns, keys, index, emptyCount, position, c, key);
      Install(conns + [c], keys + [key], buckets, empty, position[c := |conns|]);
    }

    /** All fields of the list at once. */
    method Install(cs: seq<Conn>, ks: seq<MatchKey>, buckets: Index, empty: nat, places: map<Conn, nat>)
      requires ListOk(used, cs, ks, buckets, empty, places, {})
      modifies this`conns, this`keys, this`index, this`emptyCount, this`position, this`count
      ensures Valid() && conns == cs && keys == ks
    {
      conns, keys, index, emptyCount, position, count := cs, ks, buckets, empty, places, |cs|;
    }

    /** Repair if needed, then remove one slot; an index beyond the end changes nothing. */
    method Remove(i: nat, reserved: set<Conn>) returns (r: Option<Conn>, ghost mended: seq<MatchKey>)
      requires Mendable()
      modifies this`conns, this`keys, this`index, this`emptyCount, this`position, this`count
      ensures i >= |old(conns)| ==>
        r.None? && conns == old(conns) && keys == old(keys) && index == old(index) && Mendable()
      ensures i < |old(conns)| ==>
        && Valid() && r == Some(old(conns)[i]) && conns == SwapRemove(old(conns), i)
        && Mended(used, old(conns), old(index), old(keys), reserved, mended) && keys == SwapRemove(mended, i)
      ensures i < |old(conns)| && old(|keys| == |conns|) ==> View() == SwapRemove(old(View()), i)
    {
      mended := keys;
      if i >= |conns| {
        return None, mended;
      }
      if used {
        EnsureConsistent(reserved);
      } else {
        Unindex(conns[i], reserved);
      }
      mended := keys;
      SlotsSwapRemove(conns, keys, i);
      var c := DropSlot(i);
      r := Some(c);
    }

    /**
     * Rebuild positions, positional keys and index from the buckets alone, whatever
     * state they drifted into. A connection keeps a key only if it is unreserved and
     * the old buckets named it exactly once.
     */
    method Rebuild(reserved: set<Conn>)
      requires !used && NoDup(conns) && count == |conns|
      modifies this`keys, this`index, this`emptyCount, this`position
      ensures Valid()
      ensures forall i, k {:trigger OnlyUnder(old(index), conns[i], k)} :: 0 <= i < |conns| && k != NO_KEY ==>
        (keys[i] == k <==> conns[i] !in reserved && OnlyUnder(old(index), conns[i], k))
      ensures old(Valid()) && (forall i :: 0 <= i < |conns| && conns[i] in reserved ==> old(keys)[i] == NO_KEY)
        ==> keys == old(keys)
    {
      ghost var healthy := Valid() && forall i :: 0 <= i < |conns| && conns[i] in reserved ==> keys[i] == NO_KEY;
      var positions, repaired, hits := TallyIndex(conns, index, reserved);
      ghost var was := index;
      Reindex(positions, repaired, hits);
      forall i, k | 0 <= i < |conns| && k != NO_KEY
        ensures keys[i] == k <==> conns[i] !in reserved && OnlyUnder(was, conns[i], k)
      {
        assert Tallied(was, conns[i], reserved, hits[i], repaired[i]);
        OnlyOneKey(was, conns[i]);
      }
      if healthy {
        forall i | 0 <= i < |conns| ensures keys[i] == old(keys)[i] {
          if old(keys)[i] != NO_KEY {
            HealthyIndexNamesEachSlotOnce(was, conns, old(keys), old(position), i, old(keys)[i]);
          }
          if keys[i] != NO_KEY {
            HealthyIndexNamesEachSlotOnce(was, conns, old(keys), old(position), i, keys[i]);
          }
        }
      }
    }

    /**
     * Bring mirror and array back in line when their lengths differ. FREE rebuilds
     * from its buckets; USED keeps its positional prefix, drops the reverse index and
     * leaves the missing positions keyless.
     */
    method EnsureConsistent(reserved: set<Conn>)
      requires NoDup(conns) && count == |conns|
      modifies this`keys, this`index, this`emptyCount, this`position
      ensures Mended(used, conns, old(index), old(keys), reserved, keys)
      ensures old(|keys| == |conns|) ==>
        index == old(index) && position == old(position) && emptyCount == old(emptyCount)
      ensures old(|keys| != |conns| || Valid()) ==> Valid()
    {
      if |keys| == |conns| {
        return;
      }
      if !used {
        Rebuild(reserved);
        return;
      }
      index, emptyCount := map[], 0;
      assert EmptyBuckets(index) == {};
      var prefix := keys;
      keys := seq(|conns|, i requires 0 <= i => if i < |prefix| then prefix[i] else NO_KEY);
      for i := 0 to |conns|
        invariant index == map[] && emptyCount == 0
        invariant keys == seq(|conns|, i requires 0 <= i => if i < |prefix| then prefix[i] else NO_KEY)
        invariant Positioned(conns[..i], position)
      {
        position := position[conns[i] := i];
      }
      assert conns[..|conns|] == conns;
    }

    /** The last pass of the rebuild: index exactly the positions hit once. */
    method Reindex(positions: map<Conn, nat>, repaired: seq<MatchKey>, hits: seq<nat>)
      requires !used && NoDup(conns) && count == |conns| && |repaired| == |hits| == |conns|
      requires Positioned(conns, positions)
      requires forall i :: 0 <= i < |conns| && hits[i] == 1 ==> repaired[i] != NO_KEY
      modifies this`keys, this`index, this`emptyCount, this`position
      ensures Valid()
      ensures forall i :: 0 <= i < |conns| ==> keys[i] == if hits[i] == 1 then repaired[i] else NO_KEY
    {
      var rebuilt: Index := map[];
      var nextKeys := repaired;
      for i := 0 to |conns|
        invariant |nextKeys| == |conns|
        invariant forall j :: 0 <= j < i ==> nextKeys[j] == if hits[j] == 1 then repaired[j] else NO_KEY
        invariant forall j :: i <= j < |conns| ==> nextKeys[j] == repaired[j]
        invariant EntriesAreSlots(rebuilt, conns[..i], nextKeys[..i], positions)
        invariant SlotsAreEntries(rebuilt, conns[..i], nextKeys[..i], {})
        invariant BucketsNoDup(rebuilt) && forall k :: k in rebuilt ==> rebuilt[k] != []
      {
        ghost var key := if hits[i] == 1 then repaired[i] else NO_KEY;
        AppendKeepsIndex(rebuilt, conns[..i], nextKeys[..i], positions, conns[i], key);
        assert positions[conns[i] := i] == positions;
        assert conns[..i + 1] == conns[..i] + [conns[i]];
        ghost var was := nextKeys;
        if hits[i] == 1 {
          var k := repaired[i];
          rebuilt := rebuilt[k := (if k in rebuilt then rebuilt[k] else []) + [conns[i]]];
        } else {
          nextKeys := nextKeys[i := NO_KEY];
        }
        assert nextKeys[..i + 1] == was[..i] + [key];
      }
      assert conns[..|conns|] == conns && nextKeys[..|conns|] == nextKeys;
      assert EmptyBuckets(rebuilt) == {};
      keys, index, emptyCount, position := nextKeys, rebuilt, 0, positions;
    }

    /**
     * Take a FREE connection by exact key, after repairing a length mismatch. Unless index
     * and list have drifted apart otherwise, this succeeds exactly when some position
     * carries the key. If they have, the index is rebuilt once, and a connection is still
     * only handed out if its slot carries the key at that moment.
     */
    method RemoveMatching(key: MatchKey, reserved: set<Conn>)
      returns (r: Option<Conn>, ghost at: nat, ghost mended: seq<MatchKey>)
      requires !used && NoDup(conns) && count == |conns| && key != NO_KEY
      modifies this`conns, this`keys, this`index, this`emptyCount, this`position, this`count
      ensures Mended(used, old(conns), old(index), old(keys), reserved, mended)
      ensures r.None? ==> conns == old(conns)
      ensures r.Some? ==> at < |old(conns)| && r.value == old(conns)[at] && conns == SwapRemove(old(conns), at)
      ensures r.Some? ==> mended[at] == key || (r.value !in reserved && OnlyUnder(old(index), r.value, key))
      ensures old(Mendable()) ==> Valid() && (r.None? <==> !Carries(mended, key))
      ensures old(Mendable()) ==>
        if r.None? then keys == mended else mended[at] == key && keys == SwapRemove(mended, at)
    {
      EnsureConsistent(reserved);
      mended := keys;
      ghost var healthy, before := Valid(), index;
      if healthy {
        LookupRefinesScan(index, conns, keys, position, key);
      }
      r, at := TryRemoveMatching(key);
      if r.None? && key in index && index[key] != [] {
        Rebuild(reserved);
        r, at := TryRemoveMatching(key);
        if r.Some? {
          assert OnlyUnder(before, old(conns)[at], key);
        }
      }
    }

    /** One attempt: the last bucket entry, provided its current slot carries the key. */
    method TryRemoveMatching(key: MatchKey) returns (r: Option<Conn>, ghost at: nat)
      requires !used && NoDup(conns) && |keys| == |conns| == count && key != NO_KEY
      modifies this`conns, this`keys, this`index, this`emptyCount, this`position, this`count
      ensures r.None? ==> conns == old(conns) && keys == old(keys) && index == old(index) && count == old(count)
      ensures r.Some? ==> at < |old(conns)| && old(conns)[at] == r.value && old(keys)[at] == key
      ensures r.Some? ==> conns == SwapRemove(old(conns), at) && keys == SwapRemove(old(keys), at)
      ensures old(Valid()) ==> Valid() && (r.None? <==> key !in old(index) || old(index)[key] == [])
    {
      at := 0;
      if key !in index || index[key] == [] {
        return None, at;
      }
      var c := index[key][|index[key]| - 1];
      assert c in index[key];
      var i := FindIdx(c);
      if i < 0 || keys[i] != key {
        return None, at;
      }
      PopBucket(key);
      at := i;
      c := DropSlot(i);
      r := Some(c);
    }

    /** Take the last entry off a bucket. */
    method PopBucket(key: MatchKey)
      requires !used && key in index && index[key] != []
      modifies this`index, this`emptyCount
      ensures old(Valid()) ==> ValidExcept({old(index)[key][|old(index)[key]| - 1]})
    {
      ghost var healthy := Valid();
      if healthy {
        PopKeepsIndex(index, conns, keys, position, key);
      }
      var rest := index[key][..|index[key]| - 1];
      EmptyBucketShrinks(index, key, rest);
      index := index[key := rest];
      if rest == [] {
        LimitEmptyBuckets(key);
        assert key !in index ==> EmptyBuckets(index) == EmptyBuckets(old(index));
      }
    }

    /** Remove one slot by swapping the last one in; its connection must already be out of the index. */
    method DropSlot(i: nat) returns (c: Conn)
      requires i < |conns| && NoDup(conns) && |keys| == |conns| == count
      modifies this`conns, this`keys, this`position, this`count
      ensures c == old(conns)[i] && count == |conns|
      ensures conns == SwapRemove(old(conns), i) && keys == SwapRemove(old(keys), i)
      ensures old(ValidExcept(if used then {} else {conns[i]})) ==> Valid()
    {
      c := conns[i];
      SwapRemoveNoDup(conns, i);
      var last := conns[|conns| - 1];
      conns := SwapRemove(conns, i);
      keys := SwapRemove(keys, i);
      position := position - {c};
      if i < |conns| {
        position := position[last := i];
      }
      count := |conns|;
      if !used && old(ValidExcept({conns[i]})) {
        SwapRemoveKeepsIndex(index, old(conns), old(keys), old(position), i);
      }
    }

    /** Every connection leaves the list, the first of them after a repair. */
    method DetachSlots(reserved: set<Conn>) returns (out: seq<Conn>)
      requires Mendable()
      modifies this`conns, this`keys, this`index, this`emptyCount, this`position, this`count
      ensures conns == [] && multiset(out) == multiset(old(conns)) && Mendable()
      ensures old(conns) != [] ==> keys == []
      ensures old(conns) == [] ==> keys == old(keys)
    {
      out := [];
      while conns != []
        invariant Mendable() && multiset(out) + multiset(conns) == multiset(old(conns))
        invariant conns != old(conns) ==> |keys| == |conns|
        invariant old(conns) == [] ==> keys == old(keys)
        decreases |conns|
      {
        var c := DetachOne(reserved);
        out := out + [c];
      }
    }

    method DetachOne(reserved: set<Conn>) returns (c: Conn)
      requires Mendable() && conns != []
      modifies this`conns, this`keys, this`index, this`emptyCount, this`position, this`count
      ensures Mendable() && |keys| == |conns| == |old(conns)| - 1
      ensures multiset(old(conns)) == multiset(conns) + multiset{c}
    {
      SwapRemoveMultiset(conns, 0);
      assert multiset(conns)[conns[0]] >= 1;
      var r, _ := Remove(0, reserved);
      c := r.value;
    }

    /** Empty the list; of a list in order, or one that had a connection, no bucket survives. */
    method DetachAll(reserved: set<Conn>) returns (out: seq<Conn>)
      requires Mendable()
      modifies this`conns, this`keys, this`index, this`emptyCount, this`position, this`count
      ensures conns == [] && multiset(out) == multiset(old(conns))
      ensures old(conns != [] || keys == []) ==> Valid() && index == map[] && emptyCount == 0
    {
      out := DetachSlots(reserved);
      if !used {
        ghost var inOrder := Valid();
        if inOrder {
          NoSlotsNoEntries(index, position);
        }
        PruneEmptyBuckets();
        assert inOrder ==> index == map[];
      }
    }
  }

  /** First passes of the rebuild: where each connection is, and how the buckets name it. */
  method TallyIndex(conns: seq<Conn>, index: Index, reserved: set<Conn>)
    returns (positions: map<Conn, nat>, repaired: seq<MatchKey>, hits: seq<nat>)
    requires NoDup(conns)
    ensures Positioned(conns, positions) && |repaired| == |hits| == |conns|
    ensures forall i :: 0 <= i < |conns| ==> Tallied(index, conns[i], reserved, hits[i], repaired[i])
  {
    positions := map[];
    for i := 0 to |conns|
      invariant Positioned(conns[..i], positions)
      invariant forall c :: c in positions ==> positions[c] < i && conns[positions[c]] == c
    {
      positions := positions[conns[i] := i];
    }
    assert conns[..|conns|] == conns;
    repaired := seq(|conns|, _ => NO_KEY);
    hits := seq(|conns|, _ => 0);
    var todo := index.Keys;
    ghost var seen: Index := map[];
    while todo != {}
      invariant todo <= index.Keys && seen.Keys == index.Keys - todo
      invariant forall k :: k in seen ==> seen[k] == index[k]
      invariant |repaired| == |hits| == |conns|
      invariant forall i :: 0 <= i < |conns| ==> Tallied(seen, conns[i], reserved, hits[i], repaired[i])
      decreases |todo|
    {
      var k :| k in todo;
      todo := todo - {k};
      if k == NO_KEY {
        TallyEmptyKey(seen, index[k], conns, reserved, hits, repaired);
      } else {
        repaired, hits := TallyBucket(conns, positions, reserved, k, index[k], seen, repaired, hits);
      }
      seen := seen[k := index[k]];
    }
    assert seen == index;
  }

  method TallyBucket(conns: seq<Conn>, positions: map<Conn, nat>, reserved: set<Conn>, k: MatchKey, bucket: seq<Conn>,
                     ghost seen: Index, repaired0: seq<MatchKey>, hits0: seq<nat>)
    returns (repaired: seq<MatchKey>, hits: seq<nat>)
    requires NoDup(conns) && Positioned(conns, positions) && k != NO_KEY && k !in seen
    requires forall c :: c in positions ==> positions[c] < |conns| && conns[positions[c]] == c
    requires |repaired0| == |hits0| == |conns|
    requires forall i :: 0 <= i < |conns| ==> Tallied(seen, conns[i], reserved, hits0[i], repaired0[i])
    ensures |repaired| == |hits| == |conns|
    ensures forall i :: 0 <= i < |conns| ==> Tallied(seen[k := bucket], conns[i], reserved, hits[i], repaired[i])
  {
    repaired, hits := repaired0, hits0;
    TallyEmptyBucket(seen, k, conns, reserved, hits, repaired);
    assert bucket[..0] == [];
    for j := 0 to |bucket|
      invariant |repaired| == |hits| == |conns|
      invariant forall i :: 0 <= i < |conns| ==>
        Tallied(seen[k := bucket[..j]], conns[i], reserved, hits[i], repaired[i])
    {
      var c := bucket[j];
      ghost var prev := seen[k := bucket[..j]];
      assert bucket[..j + 1] == prev[k] + [c];
      assert prev[k := prev[k] + [c]] == seen[k := bucket[..j + 1]];
      TallyEntry(prev, k, c, conns, reserved, hits, repaired);
      if c in positions && c !in reserved {
        var i := positions[c];
        if hits[i] == 0 {
          repaired := repaired[i := k];
        }
        hits := hits[i := hits[i] + 1];
      }
    }
    assert bucket[..|bucket|] == bucket;
  }

  /** What the rebuild has counted for one connection over the buckets seen so far. */
  ghost predicate Tallied(seen: Index, c: Conn, reserved: set<Conn>, hits: nat, key: MatchKey) {
    if c in reserved then hits == 0
    else if hits == 0 then Unlisted(seen, c)
    else if hits == 1 then OnlyUnder(seen, c, key)
    else !Unlisted(seen, c) && forall k :: !OnlyUnder(seen, c, k)
  }

  lemma TallyEmptyBucket(seen: Index, k: MatchKey, conns: seq<Conn>, reserved: set<Conn>, hits: seq<nat>,
                         keys: seq<MatchKey>)
    requires k !in seen && |keys| == |hits| == |conns|
    requires forall i :: 0 <= i < |conns| ==> Tallied(seen, conns[i], reserved, hits[i], keys[i])
    ensures forall i :: 0 <= i < |conns| ==> Tallied(seen[k := []], conns[i], reserved, hits[i], keys[i])
  {
    forall i | 0 <= i < |conns| ensures Tallied(seen[k := []], conns[i], reserved, hits[i], keys[i]) {
      SameListing(seen, seen[k := []], conns[i]);
    }
  }

  lemma TallyEmptyKey(seen: Index, bucket: seq<Conn>, conns: seq<Conn>, reserved: set<Conn>, hits: seq<nat>,
                      keys: seq<MatchKey>)
    requires NO_KEY !in seen && |keys| == |hits| == |conns|
    requires forall i :: 0 <= i < |conns| ==> Tallied(seen, conns[i], reserved, hits[i], keys[i])
    ensures forall i :: 0 <= i < |conns| ==> Tallied(seen[NO_KEY := bucket], conns[i], reserved, hits[i], keys[i])
  {
    forall i | 0 <= i < |conns| ensures Tallied(seen[NO_KEY := bucket], conns[i], reserved, hits[i], keys[i]) {
      SameListing(seen, seen[NO_KEY := bucket], conns[i]);
    }
  }

  /** Two indexes that name `c` alike in every keyed bucket agree on how it is listed. */
  lemma SameListing(a: Index, b: Index, c: Conn)
    requires forall k :: k != NO_KEY && k in a ==> k in b && multiset(b[k])[c] == multiset(a[k])[c]
    requires forall k :: k != NO_KEY && k in b && k !in a ==> c !in b[k]
    ensures Unlisted(a, c) <==> Unlisted(b, c)
    ensures forall k :: OnlyUnder(a, c, k) <==> OnlyUnder(b, c, k)
  {
    assert forall k :: k in a ==> (c in a[k] <==> multiset(a[k])[c] > 0);
    assert forall k :: k in b ==> (c in b[k] <==> multiset(b[k])[c] > 0);
  }

  /** One more bucket entry moves the tally of its own connection by one and of no other. */
  lemma TallyEntry(seen: Index, k: MatchKey, c: Conn, conns: seq<Conn>, reserved: set<Conn>, hits: seq<nat>,
                   keys: seq<MatchKey>)
    requires k in seen && k != NO_KEY && |keys| == |hits| == |conns|
    requires forall i :: 0 <= i < |conns| ==> Tallied(seen, conns[i], reserved, hits[i], keys[i])
    ensures forall i :: 0 <= i < |conns| ==>
      var more := seen[k := seen[k] + [c]];
      if conns[i] != c || c in reserved then Tallied(more, conns[i], reserved, hits[i], keys[i])
      else Tallied(more, c, reserved, hits[i] + 1, if hits[i] == 0 then k else keys[i])
  {
    var more := seen[k := seen[k] + [c]];
    forall i | 0 <= i < |conns|
      ensures if conns[i] != c || c in reserved then Tallied(more, conns[i], reserved, hits[i], keys[i])
        else Tallied(more, c, reserved, hits[i] + 1, if hits[i] == 0 then k else keys[i])
    {
      if conns[i] != c {
        SameListing(seen, more, conns[i]);
      } else if c !in reserved {
        CountOneMore(seen, k, c, hits[i], keys[i]);
      }
    }
  }

  lemma CountOneMore(seen: Index, k: MatchKey, c: Conn, hits: nat, key: MatchKey)
    requires k in seen && k != NO_KEY && Tallied(seen, c, {}, hits, key)
    ensures Tallied(seen[k := seen[k] + [c]], c, {}, hits + 1, if hits == 0 then k else key)
  {
    var more := seen[k := seen[k] + [c]];
    assert c in more[k] && multiset(more[k])[c] == multiset(seen[k])[c] + 1;
    assert c in seen[k] <==> multiset(seen[k])[c] > 0;
    forall k2 | OnlyUnder(more, c, k2) ensures k2 == k && Unlisted(seen, c) {
      assert k2 == k;
      forall k3 | k3 in seen && k3 != NO_KEY ensures c !in seen[k3] {
        assert k3 != k ==> more[k3] == seen[k3];
      }
    }
    if hits == 1 {
      assert c in seen[key];
    }
  }

  lemma PopKeepsIndex(index: Index, conns: seq<Conn>, keys: seq<MatchKey>, position: map<Conn, nat>, key: MatchKey)
    requires |keys| == |conns| && key in index && index[key] != [] && BucketsNoDup(index)
    requires EntriesAreSlots(index, conns, keys, position) && SlotsAreEntries(index, conns, keys, {})
    ensures var n := |index[key]| - 1;
      var c := index[key][n];
      forall next :: next == index[key := index[key][..n]] || (n == 0 && next == index - {key}) ==>
        && EntriesAreSlots(next, conns, keys, position) && SlotsAreEntries(next, conns, keys, {c})
        && BucketsNoDup(next) && forall k, x {:trigger x in next[k]} :: k in next && x in next[k] ==> x != c
  {
    var n := |index[key]| - 1;
    var c := index[key][n];
    assert c in index[key];
    forall next | next == index[key := index[key][..n]] || (n == 0 && next == index - {key})
      ensures EntriesAreSlots(next, conns, keys, position) && SlotsAreEntries(next, conns, keys, {c})
      ensures BucketsNoDup(next) && forall k, x {:trigger x in next[k]} :: k in next && x in next[k] ==> x != c
    {
      forall k, x | k in next && x in next[k] ensures x in index[k] && x != c {
        if k == key {
          var j :| 0 <= j < n && index[key][j] == x;
        }
      }
      forall i | 0 <= i < |conns| && keys[i] != NO_KEY && conns[i] != c
        ensures keys[i] in next && conns[i] in next[keys[i]]
      {
        assert conns[i] in index[keys[i]];
        if keys[i] == key {
          var j :| 0 <= j < |index[key]| && index[key][j] == conns[i];
          assert j < n && next[key][j] == conns[i];
        }
      }
    }
  }

  /** The index after appending `c` under `key`. */
  ghost function Appended(index: Index, c: Conn, key: MatchKey): Index {
    if key == NO_KEY then index
    else index[key := (if key in index then index[key] else []) + [c]]
  }

  /** An empty bucket that gets an entry is not empty any more. */
  ghost function EmptiesAfter(index: Index, empty: nat, key: MatchKey): nat {
    if key in index && index[key] == [] && empty > 0 then empty - 1 else empty
  }

  lemma AppendEmpties(index: Index, empty: nat, c: Conn, key: MatchKey)
    requires empty == |EmptyBuckets(index)| && key != NO_KEY
    ensures |EmptyBuckets(Appended(index, c, key))| == EmptiesAfter(index, empty, key)
  {
    assert EmptyBuckets(Appended(index, c, key)) == EmptyBuckets(index) - {key};
    assert key in EmptyBuckets(index) <==> key in index && index[key] == [];
  }

  /** Appending a connection, under a key or keyless. */
  lemma AppendKeeps(used: bool, conns: seq<Conn>, keys: seq<MatchKey>, index: Index, empty: nat,
                    position: map<Conn, nat>, c: Conn, key: MatchKey)
    requires ListOk(used, conns, keys, index, empty, position, {}) && c !in conns
    ensures var indexed := key != NO_KEY && !used;
      ListOk(used, conns + [c], keys + [key], if indexed then Appended(index, c, key) else index,
             if indexed then EmptiesAfter(index, empty, key) else empty, position[c := |conns|], {})
  {
    if !used {
      AppendKeepsIndex(index, conns, keys, position, c, key);
      if key != NO_KEY {
        AppendEmpties(index, empty, c, key);
      }
    }
  }

  /** Taking the entry at place `j` of its bucket out hides the connection at `i` from the index. */
  lemma UnindexKeeps(conns: seq<Conn>, keys: seq<MatchKey>, index: Index, empty: nat, position: map<Conn, nat>,
                     i: nat, j: nat)
    requires ListOk(false, conns, keys, index, empty, position, {}) && i < |conns| && keys[i] != NO_KEY
    requires keys[i] in index && j < |index[keys[i]]| && index[keys[i]][j] == conns[i]
    ensures var k := keys[i];
      var rest := SwapRemove(index[k], j);
      var next := index[k := rest];
      && (rest != [] ==> ListOk(false, conns, keys, next, empty, position, {conns[i]}))
      && (rest == [] ==> ListOk(false, conns, keys, next, empty + 1, position, {conns[i]}))
      && (rest == [] ==> ListOk(false, conns, keys, next - {k}, empty, position, {conns[i]}))
  {
    var k := keys[i];
    var rest := SwapRemove(index[k], j);
    SwapRemoveNoDup(index[k], j);
    EmptyBucketShrinks(index, k, rest);
    if rest == [] {
      assert EmptyBuckets(index[k := rest] - {k}) == EmptyBuckets(index);
    }
  }

  lemma AppendKeepsIndex(index: Index, conns: seq<Conn>, keys: seq<MatchKey>, position: map<Conn, nat>, c: Conn,
                         key: MatchKey)
    requires |keys| == |conns| && c !in conns
    requires EntriesAreSlots(index, conns, keys, position) && SlotsAreEntries(index, conns, keys, {})
      && BucketsNoDup(index)
    ensures EntriesAreSlots(Appended(index, c, key), conns + [c], keys + [key], position[c := |conns|])
    ensures SlotsAreEntries(Appended(index, c, key), conns + [c], keys + [key], {})
    ensures BucketsNoDup(Appended(index, c, key))
  {
    var next := Appended(index, c, key);
    forall k, x | k in next && x in next[k]
      ensures k != NO_KEY && ((x == c && k == key) || (k in index && x in index[k]))
    {
      if !(x == c && k == key) {
        assert k in index && x in index[k];
      }
    }
    forall k | k in next ensures NoDup(next[k]) {
      if k == key && k in index {
        assert c !in index[k];
      }
    }
  }

  lemma SwapRemoveKeepsIndex(index: Index, conns: seq<Conn>, keys: seq<MatchKey>, position: map<Conn, nat>, i: nat)
    requires |keys| == |conns| && i < |conns| && NoDup(conns) && Positioned(conns, position)
    requires EntriesAreSlots(index, conns, keys, position) && SlotsAreEntries(index, conns, keys, {conns[i]})
    requires forall k, c {:trigger c in index[k]} :: k in index && c in index[k] ==> c != conns[i]
    ensures var gone := position - {conns[i]};
      var moved := if i < |conns| - 1 then gone[conns[|conns| - 1] := i] else gone;
      && EntriesAreSlots(index, SwapRemove(conns, i), SwapRemove(keys, i), moved)
      && SlotsAreEntries(index, SwapRemove(conns, i), SwapRemove(keys, i), {})
  {
    var last := conns[|conns| - 1];
    var gone := position - {conns[i]};
    var moved := if i < |conns| - 1 then gone[last := i] else gone;
    forall k, c | k in index && c in index[k]
      ensures k != NO_KEY && c in moved && moved[c] < |conns| - 1
        && SwapRemove(conns, i)[moved[c]] == c && SwapRemove(keys, i)[moved[c]] == k
    {
      assert c in index[k] && c != conns[i] && conns[position[c]] == c;
    }
  }

  /** On a healthy index of unreserved keyed slots the rebuild criterion gives back the stored keys. */
  lemma HealthyIndexNamesEachSlotOnce(index: Index, conns: seq<Conn>, keys: seq<MatchKey>, position: map<Conn, nat>,
                                      i: nat, k: MatchKey)
    requires |keys| == |conns| && i < |conns| && k != NO_KEY
    requires Positioned(conns, position) && BucketsNoDup(index)
    requires EntriesAreSlots(index, conns, keys, position) && SlotsAreEntries(index, conns, keys, {})
    ensures OnlyUnder(index, conns[i], k) <==> keys[i] == k
  {
    var c := conns[i];
    if keys[i] == k {
      NoDupCountsOnce(index[k], c);
      assert forall k2 :: k2 in index && c in index[k2] ==> k2 == k;
    }
    if OnlyUnder(index, c, k) {
      assert c in index[k];
    }
  }

  lemma {:induction false} NoDupCountsOnce(s: seq<Conn>, c: Conn)
    requires NoDup(s) && c in s
    ensures multiset(s)[c] == 1
  {
    var n := |s| - 1;
    assert s == s[..n] + [s[n]];
    if s[n] == c {
      assert c !in s[..n];
    } else {
      NoDupCountsOnce(s[..n], c);
    }
  }

  lemma HasMember(s: seq<Conn>)
    ensures s == [] || exists c :: c in s
  {
    if s != [] {
      assert s[0] in s;
    }
  }

  lemma NoSlotsNoEntries(index: Index, position: map<Conn, nat>)
    requires EntriesAreSlots(index, [], [], position)
    ensures forall k :: k in index ==> index[k] == []
  {
    forall k | k in index ensures index[k] == [] {
      HasMember(index[k]);
    }
  }

  lemma OnlyOneKey(index: Index, c: Conn)
    ensures forall k, k2 :: OnlyUnder(index, c, k) && OnlyUnder(index, c, k2) ==> k == k2
    ensures Unlisted(index, c) ==> forall k :: !OnlyUnder(index, c, k)
  {
    assert forall k :: k in index ==> (c in index[k] <==> multiset(index[k])[c] > 0);
  }

  lemma EmptyBucketShrinks(index: Index, k: MatchKey, rest: seq<Conn>)
    requires k in index && index[k] != []
    ensures EmptyBuckets(index[k := rest]) == EmptyBuckets(index) + if rest == [] then {k} else {}
    ensures k !in EmptyBuckets(index)
  {
  }
}
