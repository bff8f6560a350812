/** Values shared by the models of the PostgreSQL connection pool. */
module PoolTypes {
  import opened Common

  /** The four-word exact-match key. The pool only ever compares its words. */
  datatype MatchKey = MatchKey(w0: nat, w1: nat, w2: nat, w3: nat)

  /** The all-zero key: a connection stored under it is keyless. */
  const NO_KEY := MatchKey(0, 0, 0, 0)

  /** A backend connection; `parent` is the server it was opened to and never changes. */
  datatype Conn = Conn(parent: nat, id: nat)

  /** A list position: the connection and the exact key it is stored under. */
  datatype Slot = Slot(conn: Conn, key: MatchKey)

  /** The positions of a list kept as two arrays. */
  ghost function Slots(conns: seq<Conn>, keys: seq<MatchKey>): (s: seq<Slot>)
    requires |conns| == |keys|
    ensures |s| == |conns| && forall i :: 0 <= i < |s| ==> s[i] == Slot(conns[i], keys[i])
  {
    seq(|conns|, i requires 0 <= i < |conns| => Slot(conns[i], keys[i]))
  }

  lemma SlotsAppend(conns: seq<Conn>, keys: seq<MatchKey>, c: Conn, key: MatchKey)
    requires |conns| == |keys|
    ensures Slots(conns + [c], keys + [key]) == Slots(conns, keys) + [Slot(c, key)]
  {
  }

  lemma SlotsSwapRemove(conns: seq<Conn>, keys: seq<MatchKey>, i: nat)
    requires |conns| == |keys| && i < |conns|
    ensures Slots(SwapRemove(conns, i), SwapRemove(keys, i)) == SwapRemove(Slots(conns, keys), i)
  {
  }

  /** What `PtrArray::remove_index_fast` leaves: the last element moves into the hole. */
  function SwapRemove<T>(s: seq<T>, i: nat): (r: seq<T>)
    requires i < |s|
    ensures |r| == |s| - 1
    ensures forall j :: 0 <= j < |r| ==> r[j] == if j == i then s[|s| - 1] else s[j]
  {
    s[i := s[|s| - 1]][..|s| - 1]
  }

  /** A swap-removal loses exactly the one element it was asked to remove. */
  lemma SwapRemoveMultiset<T>(s: seq<T>, i: nat)
    requires i < |s|
    ensures multiset(SwapRemove(s, i)) == multiset(s) - multiset{s[i]}
  {
    var n := |s| - 1;
    assert s == s[..n] + [s[n]];
    if i < n {
      assert SwapRemove(s, i) == s[..n][i := s[n]];
      assert multiset(s[..n][i := s[n]]) == multiset(s[..n]) - multiset{s[i]} + multiset{s[n]};
    } else {
      assert SwapRemove(s, i) == s[..n];
    }
  }

  lemma SwapRemoveNoDup<T>(s: seq<T>, i: nat)
    requires i < |s| && NoDup(s)
    ensures NoDup(SwapRemove(s, i)) && s[i] !in SwapRemove(s, i)
    ensures forall x :: x in SwapRemove(s, i) <==> x in s && x != s[i]
  {
    var r := SwapRemove(s, i);
    forall x ensures x in r <==> x in s && x != s[i] {
      if x in s && x != s[i] {
        var j :| 0 <= j < |s| && s[j] == x;
        assert r[if j == |s| - 1 then i else j] == x;
      }
      if x in r {
        var j :| 0 <= j < |r| && r[j] == x;
        assert x == s[if j == i then |s| - 1 else j];
      }
    }
  }
}
