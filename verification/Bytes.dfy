/** Byte strings and packet lists. */
module Bytes {

  newtype byte = x: int | 0 <= x < 256

  type Packet = seq<byte>

  /** The bytes of a packet list, in order. */
  function Flat(ps: seq<Packet>): seq<byte> {
    if ps == [] then [] else ps[0] + Flat(ps[1..])
  }

  lemma {:induction false} FlatConcat(a: seq<Packet>, b: seq<Packet>)
    ensures Flat(a + b) == Flat(a) + Flat(b)
  {
    if a == [] {
      assert a + b == b;
    } else {
      assert (a + b)[0] == a[0] && (a + b)[1..] == a[1..] + b;
      FlatConcat(a[1..], b);
    }
  }

  lemma FlatOne(p: Packet)
    ensures Flat([p]) == p
  {
    assert [p][1..] == [];
    assert p + [] == p;
  }

  lemma FlatPush(a: seq<Packet>, p: Packet)
    ensures Flat(a + [p]) == Flat(a) + p
  {
    FlatConcat(a, [p]);
    FlatOne(p);
  }

  /** What is left of a list whose first packet is read from `off`. */
  lemma FlatFrom(ps: seq<Packet>, off: nat)
    requires ps != [] && off <= |ps[0]|
    ensures |Flat(ps)| == |ps[0]| + |Flat(ps[1..])| && Flat(ps)[off..] == ps[0][off..] + Flat(ps[1..])
  {
  }

  /** The length of the first `i` packets. */
  function Size(ps: seq<Packet>, i: nat): nat
    requires i <= |ps|
  {
    if i == 0 then 0 else Size(ps, i - 1) + |ps[i - 1]|
  }

  lemma {:induction false} SizeIsFlat(ps: seq<Packet>, i: nat)
    requires i <= |ps|
    ensures Size(ps, i) == |Flat(ps[..i])|
  {
    if i > 0 {
      SizeIsFlat(ps, i - 1);
      assert ps[..i] == ps[..i - 1] + [ps[i - 1]];
      FlatPush(ps[..i - 1], ps[i - 1]);
    }
  }

  lemma {:induction false} SizeGrows(ps: seq<Packet>, i: nat, j: nat)
    requires i <= j <= |ps|
    ensures Size(ps, i) <= Size(ps, j)
    decreases j - i
  {
    if i < j {
      SizeGrows(ps, i, j - 1);
    }
  }

  /** The bytes of a list, cut before its `i`-th packet. */
  lemma FlatSplit(ps: seq<Packet>, i: nat)
    requires i <= |ps|
    ensures Flat(ps) == Flat(ps[..i]) + Flat(ps[i..]) && |Flat(ps[..i])| == Size(ps, i)
  {
    assert ps == ps[..i] + ps[i..];
    FlatConcat(ps[..i], ps[i..]);
    SizeIsFlat(ps, i);
  }

  lemma FlatSize(ps: seq<Packet>)
    ensures |Flat(ps)| == Size(ps, |ps|)
  {
    assert ps[..|ps|] == ps;
    SizeIsFlat(ps, |ps|);
  }
}
