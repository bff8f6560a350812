/**
 * Parameter values of a Bind message, as section 55.7 (Message Formats) of the
 * PostgreSQL 16 documentation lays them out: a 32-bit big-endian length, all ones for
 * NULL, then the bytes. The message parser walks the values to check them; a field
 * reader walks them again to hand them out.
 */
module BindValues {
  import opened Bytes
  import opened Common

  const TWO32: nat := 0x1_0000_0000
  const PARAM_NULL: nat := 0xFFFF_FFFF
  const INT32_MAX: nat := 0x7FFF_FFFF

  datatype Value = Null | Bytes(data: seq<byte>)

  /** What the reader stores in its result: a length, and where the bytes are. */
  datatype Pointer = NullPtr | EmptyLiteral | At(pos: nat)
  datatype Param = Param(len: int, value: Pointer)

  predicate Fits(v: Value) {
    v.Bytes? ==> |v.data| <= INT32_MAX
  }

  ghost predicate AllFit(vs: seq<Value>) {
    forall i :: 0 <= i < |vs| ==> Fits(vs[i])
  }

  // ----- the wire format

  /** `get_uint32be`. */
  function U32(buf: seq<byte>, at: nat): (n: nat)
    requires at + 4 <= |buf|
    ensures n < TWO32
  {
    ((buf[at] as nat * 0x100 + buf[at + 1] as nat) * 0x100 + buf[at + 2] as nat) * 0x100 + buf[at + 3] as nat
  }

  function BE32(n: nat): (b: seq<byte>)
    requires n < TWO32
    ensures |b| == 4
  {
    [(n / 0x100_0000) as byte, (n / 0x1_0000 % 0x100) as byte, (n / 0x100 % 0x100) as byte, (n % 0x100) as byte]
  }

  function EncodeOne(v: Value): seq<byte>
    requires Fits(v)
  {
    if v.Null? then BE32(PARAM_NULL) else BE32(|v.data|) + v.data
  }

  function Encode(vs: seq<Value>): seq<byte>
    requires AllFit(vs)
  {
    if vs == [] then [] else EncodeOne(vs[0]) + Encode(vs[1..])
  }

  lemma U32OfBE32(n: nat)
    requires n < TWO32
    ensures U32(BE32(n), 0) == n
  {
    assert n == n / 0x100 * 0x100 + n % 0x100;
    var a := n / 0x100;
    assert n / 0x1_0000 == a / 0x100 && n / 0x100_0000 == a / 0x100 / 0x100;
    assert a == a / 0x100 * 0x100 + a % 0x100;
    var b := a / 0x100;
    assert b == b / 0x100 * 0x100 + b % 0x100;
  }

  lemma BE32OfU32(buf: seq<byte>, at: nat)
    requires at + 4 <= |buf|
    ensures BE32(U32(buf, at)) == buf[at..at + 4]
  {
    var n := U32(buf, at);
    var b0, b1, b2, b3 := buf[at] as nat, buf[at + 1] as nat, buf[at + 2] as nat, buf[at + 3] as nat;
    var a := b0 * 0x1_0000 + b1 * 0x100 + b2;
    assert n == a * 0x100 + b3 && n / 0x100 == a && n % 0x100 == b3;
    var c := b0 * 0x100 + b1;
    assert a == c * 0x100 + b2 && n / 0x1_0000 == a / 0x100 == c && a % 0x100 == b2;
    assert n / 0x100_0000 == c / 0x100 == b0 && c % 0x100 == b1;
  }

  // ----- reading a list of values, as a function of the bytes

  /** All read; stopped after an over-long length; or the bytes run out. */
  datatype Parsed = Complete(values: seq<Value>, end: nat) | TooLong(values: seq<Value>, end: nat) | Truncated

  function Prepend(vs: seq<Value>, p: Parsed): Parsed {
    match p
    case Complete(ws, end) => Complete(vs + ws, end)
    case TooLong(ws, end) => TooLong(vs + ws, end)
    case Truncated => Truncated
  }

  /** One field: read, too long to be a value, or beyond the end of the packet. */
  datatype Field = Read(value: Value, next: nat) | Long(next: nat) | Short

  function First(buf: seq<byte>, at: nat): Field {
    if at + 4 > |buf| then Short
    else
      var len := U32(buf, at);
      if len == PARAM_NULL then Read(Null, at + 4)
      else if len > INT32_MAX then Long(at + 4)
      else if at + 4 + len > |buf| then Short
      else Read(Bytes(buf[at + 4..at + 4 + len]), at + 4 + len)
  }

  function Parse(buf: seq<byte>, at: nat, count: nat): Parsed
    decreases count
  {
    if count == 0 then Complete([], at)
    else match First(buf, at)
      case Read(v, next) => Prepend([v], Parse(buf, next, count - 1))
      case Long(next) => TooLong([], next)
      case Short => Truncated
  }

  lemma PrependTwice(vs: seq<Value>, ws: seq<Value>, p: Parsed)
    ensures Prepend(vs, Prepend(ws, p)) == Prepend(vs + ws, p)
  {
    if !p.Truncated? {
      assert vs + (ws + p.values) == vs + ws + p.values;
    }
  }

  /** `x` stands in `buf` from `at` on. */
  ghost predicate Stands(buf: seq<byte>, at: nat, x: seq<byte>) {
    at + |x| <= |buf| && forall k :: 0 <= k < |x| ==> x[k] == buf[at + k]
  }

  lemma StandsSplit(buf: seq<byte>, at: nat, x: seq<byte>, y: seq<byte>)
    ensures Stands(buf, at, x + y) <==> Stands(buf, at, x) && Stands(buf, at + |x|, y)
  {
    if Stands(buf, at, x + y) {
      forall k | 0 <= k < |x| ensures x[k] == buf[at + k] {
        assert (x + y)[k] == x[k];
      }
      forall k | 0 <= k < |y| ensures y[k] == buf[at + |x| + k] {
        assert (x + y)[|x| + k] == y[k];
      }
    }
  }

  lemma HeaderStands(buf: seq<byte>, at: nat, n: nat)
    requires n < TWO32
    ensures Stands(buf, at, BE32(n)) <==> at + 4 <= |buf| && U32(buf, at) == n
  {
    if at + 4 <= |buf| {
      BE32OfU32(buf, at);
      U32OfBE32(n);
      var four := buf[at..at + 4];
      assert U32(buf, at) == U32(four, 0);
    }
  }

  /** A field is read exactly where its encoding stands. */
  lemma FirstExact(buf: seq<byte>, at: nat, v: Value, next: nat)
    ensures First(buf, at) == Read(v, next) <==> Fits(v) && Stands(buf, at, EncodeOne(v)) && next == at + |EncodeOne(v)|
  {
    if v.Null? {
      HeaderStands(buf, at, PARAM_NULL);
    } else if Fits(v) {
      StandsSplit(buf, at, BE32(|v.data|), v.data);
      HeaderStands(buf, at, |v.data|);
    }
  }

  lemma EncodeFirst(v: Value, vs: seq<Value>)
    requires Fits(v) && AllFit(vs)
    ensures AllFit([v] + vs) && Encode([v] + vs) == EncodeOne(v) + Encode(vs)
  {
    assert ([v] + vs)[1..] == vs;
  }

  /** Where an encoded list stands, its first value is read and the rest of it stands behind. */
  lemma FirstOfList(buf: seq<byte>, at: nat, vs: seq<Value>)
    requires AllFit(vs) && vs != [] && Stands(buf, at, Encode(vs))
    ensures First(buf, at).Read? && First(buf, at).value == vs[0]
    ensures Stands(buf, First(buf, at).next, Encode(vs[1..]))
    ensures First(buf, at).next + |Encode(vs[1..])| == at + |Encode(vs)|
  {
    var one := EncodeOne(vs[0]);
    StandsSplit(buf, at, one, Encode(vs[1..]));
    FirstExact(buf, at, vs[0], at + |one|);
  }

  /** Any list of values survives encoding and reading, and reading stops at the last byte. */
  lemma {:induction false} RoundTrip(buf: seq<byte>, at: nat, vs: seq<Value>)
    requires AllFit(vs) && Stands(buf, at, Encode(vs))
    ensures Parse(buf, at, |vs|) == Complete(vs, at + |Encode(vs)|)
    decreases |vs|
  {
    if vs != [] {
      FirstOfList(buf, at, vs);
      var f, rest := First(buf, at), vs[1..];
      RoundTrip(buf, f.next, rest);
      assert Parse(buf, at, |vs|) == Prepend([f.value], Parse(buf, f.next, |rest|));
      assert [f.value] + rest == vs;
    }
  }

  /** Conversely, what is read completely is the encoding of what was read. */
  lemma {:induction false} ReadIsEncoding(buf: seq<byte>, at: nat, count: nat)
    requires Parse(buf, at, count).Complete? && at <= |buf|
    ensures var p := Parse(buf, at, count);
      |p.values| == count && AllFit(p.values) && Stands(buf, at, Encode(p.values)) && p.end == at + |Encode(p.values)|
    decreases count
  {
    if count > 0 {
      var f := First(buf, at);
      var ws := Parse(buf, f.next, count - 1).values;
      FirstExact(buf, at, f.value, f.next);
      ReadIsEncoding(buf, f.next, count - 1);
      EncodeFirst(f.value, ws);
      StandsSplit(buf, at, EncodeOne(f.value), Encode(ws));
    }
  }

  /** NULL and the empty value, and any two different lists, have different encodings. */
  lemma EncodingIsInjective(vs: seq<Value>, ws: seq<Value>)
    requires AllFit(vs) && AllFit(ws) && |vs| == |ws| && Encode(vs) == Encode(ws)
    ensures vs == ws
  {
    assert Encode(vs)[0..|Encode(vs)|] == Encode(vs);
    RoundTrip(Encode(vs), 0, vs);
    RoundTrip(Encode(vs), 0, ws);
  }

  // ----- the reader

  /** The value a result pointer stands for. */
  function Deref(buf: seq<byte>, p: Param): Value
    requires p.value.At? ==> 0 <= p.len && p.value.pos + p.len <= |buf|
  {
    match p.value
    case NullPtr => Null
    case EmptyLiteral => Bytes([])
    case At(pos) => Bytes(buf[pos..pos + p.len])
  }

  /** `PgSQL_Field_Reader<PgSQL_Param_Value>`. */
  class FieldReader {
    const buf: seq<byte>
    var current: nat
    var remaining: nat

    constructor (buf: seq<byte>, start: nat, count: nat)
      requires count <= 0xFFFF
      ensures this.buf == buf && current == start && remaining == count
    {
      this.buf := buf;
      current, remaining := start, count;
    }

    predicate HasNext()
      reads this
    {
      remaining > 0
    }

    /**
     * One field. An over-long length is refused after the cursor has passed it, and
     * does not count as read; only a value with bytes moves the cursor past them.
     */
    method Next() returns (ok: bool, out: Param)
      requires remaining > 0 ==> current + 4 <= |buf|
      modifies this
      ensures ok <==>
        old(remaining) > 0 && (U32(buf, old(current)) == PARAM_NULL || U32(buf, old(current)) <= INT32_MAX)
      ensures old(remaining) == 0 ==> current == old(current) && remaining == 0
      ensures old(remaining) > 0 && !ok ==> current == old(current) + 4 && remaining == old(remaining)
      ensures ok ==> remaining == old(remaining) - 1
      ensures ok ==> out.len == (if U32(buf, old(current)) == PARAM_NULL then -1 else U32(buf, old(current)))
      ensures ok ==> current == old(current) + 4 + (if out.len > 0 then out.len else 0)
      ensures ok ==>
        out.value == if out.len < 0 then NullPtr else if out.len == 0 then EmptyLiteral else At(old(current) + 4)
    {
      out := Param(-1, NullPtr);
      if remaining == 0 {
        return false, out;
      }
      var len := U32(buf, current);
      current := current + 4;
      if len != PARAM_NULL && len > INT32_MAX {
        return false, out;
      }
      out := out.(len := if len == PARAM_NULL then -1 else len);
      if out.len == -1 {
        out := out.(value := NullPtr);
      } else if out.len == 0 {
        out := out.(value := EmptyLiteral);
      } else {
        out := out.(value := At(current));
      }
      if out.len > 0 {
        current := current + out.len;
      }
      remaining := remaining - 1;
      return true, out;
    }
  }

  /** One turn of the loop below: read a field and follow its pointer. */
  method ReadOne(reader: FieldReader) returns (got: bool, value: Value)
    requires reader.remaining > 0 && !First(reader.buf, reader.current).Short?
    modifies reader
    ensures var f := First(reader.buf, old(reader.current));
      && got == f.Read? && reader.current == f.next
      && (got ==> value == f.value && reader.remaining == old(reader.remaining) - 1)
  {
    var param;
    got, param := reader.Next();
    if got {
      value := Deref(reader.buf, param);
    } else {
      value := Null;
    }
  }

  /** How the binding loop ends: everything read, a length refused, or past the end of the packet. */
  datatype Ending = AllRead | LengthRefused | Outside

  /**
   * The loop that binds all parameters: it stops at the first length it refuses. The code
   * has no test for the end of the packet; `Outside` marks where it would leave it.
   */
  method ReadAll(buf: seq<byte>, start: nat, count: nat) returns (ending: Ending, values: seq<Value>, end: nat)
    requires count <= 0xFFFF
    ensures Parse(buf, start, count) == match ending
      case AllRead => Complete(values, end)
      case LengthRefused => TooLong(values, end)
      case Outside => Truncated
  {
    var reader := new FieldReader(buf, start, count);
    values := [];
    PrependNothing(Parse(buf, start, count));
    while reader.HasNext()
      invariant fresh(reader) && reader.buf == buf
      invariant Parse(buf, start, count) == Prepend(values, Parse(buf, reader.current, reader.remaining))
      decreases reader.remaining
    {
      if First(buf, reader.current).Short? {
        return Outside, values, reader.current;
      }
      var got, value := ReadOne(reader);
      if !got {
        assert values + [] == values;
        return LengthRefused, values, reader.current;
      }
      PrependTwice(values, [value], Parse(buf, reader.current, reader.remaining));
      values := values + [value];
    }
    assert values + [] == values;
    return AllRead, values, reader.current;
  }

  lemma PrependNothing(p: Parsed)
    ensures Prepend([], p) == p
  {
    if !p.Truncated? {
      assert [] + p.values == p.values;
    }
  }

  // ----- the parser's own walk over the values, in 32-bit arithmetic

  function Add32(a: nat, b: nat): nat {
    (a + b) % TWO32
  }

  /** Where the walk goes from the field at `at`, if it accepts it. */
  function WalkOne(buf: seq<byte>, at: nat): Option<nat> {
    if at + 4 > |buf| then None
    else
      var len := U32(buf, at);
      if len == PARAM_NULL then Some(at + 4)
      else if Add32(at + 4, len) > |buf| then None
      else Some(Add32(at + 4, len))
  }

  function Walk(buf: seq<byte>, at: nat, count: nat): Option<nat>
    decreases count
  {
    if count == 0 then Some(at)
    else match WalkOne(buf, at)
      case None => None
      case Some(next) => Walk(buf, next, count - 1)
  }

  /** One turn of the walk. */
  method CheckOne(buf: seq<byte>, at: nat) returns (ok: bool, next: nat)
    requires at <= |buf| < TWO32
    ensures WalkOne(buf, at) == if ok then Some(next) else None
    ensures ok ==> next <= |buf|
  {
    next := at;
    if next + 4 > |buf| {
      return false, next;
    }
    var len := U32(buf, next);
    next := Add32(next, 4);
    if len != PARAM_NULL {
      if Add32(next, len) > |buf| {
        return false, next;
      }
      next := Add32(next, len);
    }
    return true, next;
  }

  /** The check `PgSQL_Bind_Message::parse` makes before any reader exists. */
  method CheckValues(buf: seq<byte>, start: nat, count: nat) returns (ok: bool, end: nat)
    requires start <= |buf| < TWO32
    ensures Walk(buf, start, count) == if ok then Some(end) else None
    ensures ok ==> end <= |buf|
    ensures Parse(buf, start, count).Complete? ==> ok && end == Parse(buf, start, count).end
    ensures Parse(buf, start, count).Truncated? && |buf| <= INT32_MAX + 1 ==> !ok
  {
    WalkExact(buf, start, count);
    if |buf| <= INT32_MAX + 1 {
      SoundExactlyUpTo2G(|buf|);
    }
    end := start;
    var i := 0;
    while i < count
      invariant 0 <= i <= count && end <= |buf|
      invariant Walk(buf, start, count) == Walk(buf, end, count - i)
    {
      ok, end := CheckOne(buf, end);
      if !ok {
        return;
      }
      i := i + 1;
    }
    ok := true;
  }

  // ----- what the walk is worth

  /** The 32-bit sum of the field's end runs over. */
  predicate Wraps(buf: seq<byte>, at: nat) {
    at + 4 <= |buf| && U32(buf, at) != PARAM_NULL && at + 4 + U32(buf, at) >= TWO32
  }

  lemma SumOfField(at: nat, len: nat)
    requires at + 4 < TWO32 && len < TWO32
    ensures Add32(at + 4, len) == if at + 4 + len < TWO32 then at + 4 + len else at + 4 + len - TWO32
  {
  }

  /** On one field: every readable one is accepted with its end, a truncated one exactly when the sum wraps. */
  lemma WalkOneExact(buf: seq<byte>, at: nat)
    requires at <= |buf| < TWO32
    ensures First(buf, at).Read? ==> WalkOne(buf, at) == Some(First(buf, at).next)
    ensures First(buf, at).Short? ==> (WalkOne(buf, at).Some? <==> Wraps(buf, at))
    ensures Wraps(buf, at) ==> WalkOne(buf, at) == Some(at + 4 + U32(buf, at) - TWO32)
  {
    if at + 4 <= |buf| && U32(buf, at) != PARAM_NULL && at + 4 < TWO32 {
      SumOfField(at, U32(buf, at));
    }
  }

  /** The first field that cannot be read, and how many fields are left there; or the end. */
  function Stop(buf: seq<byte>, at: nat, count: nat): (nat, nat)
    decreases count
  {
    if count == 0 || !First(buf, at).Read? then (at, count) else Stop(buf, First(buf, at).next, count - 1)
  }

  /** Up to there, reading and walking go together. */
  lemma {:induction false} TogetherUntilStop(buf: seq<byte>, at: nat, count: nat)
    requires at <= |buf| < TWO32
    ensures var (pos, left) := Stop(buf, at, count);
      && pos <= |buf| && left <= count && Walk(buf, at, count) == Walk(buf, pos, left)
      && (Parse(buf, at, count).Complete? <==> left == 0)
      && (Parse(buf, at, count).Complete? ==> Parse(buf, at, count).end == pos)
      && (Parse(buf, at, count).Truncated? <==> left > 0 && First(buf, pos).Short?)
    decreases count
  {
    if count > 0 && First(buf, at).Read? {
      WalkOneExact(buf, at);
      TogetherUntilStop(buf, First(buf, at).next, count - 1);
    }
  }

  /**
   * The walk accepts every complete list with its exact end. It accepts a truncated one
   * exactly when the sum wraps at the first field that cannot be read and the walk
   * carries on from the place it is thrown back to.
   */
  lemma WalkExact(buf: seq<byte>, start: nat, count: nat)
    requires start <= |buf| < TWO32
    ensures Parse(buf, start, count).Complete? ==> Walk(buf, start, count) == Some(Parse(buf, start, count).end)
    ensures Parse(buf, start, count).Truncated? ==>
      var (pos, left) := Stop(buf, start, count);
      Walk(buf, start, count).Some? <==>
        left > 0 && Wraps(buf, pos) && Walk(buf, pos + 4 + U32(buf, pos) - TWO32, left - 1).Some?
  {
    TogetherUntilStop(buf, start, count);
    WalkOneExact(buf, Stop(buf, start, count).0);
  }

  /** The walk never accepts a truncated list in a packet of this size. */
  ghost predicate SoundFor(size: nat) {
    forall buf: seq<byte>, start: nat, count: nat ::
      |buf| == size && start <= size && Parse(buf, start, count).Truncated? ==> Walk(buf, start, count).None?
  }

  /** A packet whose only value claims just enough bytes to run the sum over. */
  function Overrunning(size: nat): (buf: seq<byte>)
    requires INT32_MAX + 1 < size < TWO32
    ensures |buf| == size
  {
    seq(size - 4, _ => 0 as byte) + BE32(TWO32 - size)
  }

  lemma OverrunningIsAccepted(size: nat)
    requires INT32_MAX + 1 < size < TWO32
    ensures var buf := Overrunning(size);
      && U32(buf, size - 4) == TWO32 - size <= INT32_MAX
      && Parse(buf, size - 4, 1).Truncated? && Walk(buf, size - 4, 1) == Some(0)
  {
    var buf := Overrunning(size);
    assert buf[size - 4..size - 4 + 4] == BE32(TWO32 - size);
    HeaderStands(buf, size - 4, TWO32 - size);
    WalkOneExact(buf, size - 4);
    assert Walk(buf, 0, 0) == Some(0);
  }

  /** A caller can tell: the check is sound exactly for packets of up to 2^31 bytes. */
  lemma SoundExactlyUpTo2G(size: nat)
    requires size < TWO32
    ensures SoundFor(size) <==> size <= INT32_MAX + 1
  {
    if size <= INT32_MAX + 1 {
      forall buf: seq<byte>, start: nat, count: nat | |buf| == size && start <= size
        && Parse(buf, start, count).Truncated?
        ensures Walk(buf, start, count).None?
      {
        WalkExact(buf, start, count);
        TogetherUntilStop(buf, start, count);
      }
    } else {
      OverrunningIsAccepted(size);
      var buf := Overrunning(size);
      assert Parse(buf, size - 4, 1).Truncated? && Walk(buf, size - 4, 1).Some?;
    }
  }

  /** What the client's Bind leads to. */
  datatype Bound = Rejected | Values(values: seq<Value>) | Refused | ReadOutside

  /**
   * Check, then bind. Complete lists are always bound as they were sent; in packets of up
   * to 2^31 bytes truncated ones are rejected before anything is read.
   */
  method BindParameters(buf: seq<byte>, start: nat, count: nat) returns (r: Bound)
    requires start <= |buf| < TWO32 && count <= 0xFFFF
    ensures match Parse(buf, start, count)
      case Complete(values, _) => r == Values(values)
      case TooLong(_, _) => r == if Walk(buf, start, count).Some? then Refused else Rejected
      case Truncated => r == if Walk(buf, start, count).Some? then ReadOutside else Rejected
    ensures |buf| <= INT32_MAX + 1 ==> r != ReadOutside
  {
    var ok, _ := CheckValues(buf, start, count);
    WalkExact(buf, start, count);
    if |buf| <= INT32_MAX + 1 {
      SoundExactlyUpTo2G(|buf|);
    }
    if !ok {
      return Rejected;
    }
    var ending, values, _ := ReadAll(buf, start, count);
    match ending
    case AllRead => return Values(values);
    case LengthRefused => return Refused;
    case Outside => return ReadOutside;
  }

  /** A length above INT32_MAX can make the walk step back over the length itself; the reader refuses it. */
  lemma OverlongLengthIsWalkedBack(buf: seq<byte>, at: nat, count: nat)
    requires 2 <= at && at + 4 <= |buf| < TWO32 && U32(buf, at) == 0xFFFF_FFFA && count > 0
    ensures WalkOne(buf, at) == Some(at - 2) && Parse(buf, at, count) == TooLong([], at + 4)
  {
    WalkOneExact(buf, at);
  }
}
