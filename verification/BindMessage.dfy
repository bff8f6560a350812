/**
 * The whole Bind message, as section 55.7 (Message Formats) of the PostgreSQL 16
 * documentation lays it out: type, length, two names, format codes, values, result
 * format codes. `PgSQL_Bind_Message::parse` accepts exactly the encodings, up to the
 * wrap-around of its walk over the values.
 */
module BindMessage {
  import opened Bytes
  import opened Common
  import opened BindValues

  const BIND: byte := 0x42
  const NAMES: nat := 5

  /** Format codes are kept as the bytes they travel in. */
  datatype Message = Message(
    portal: seq<byte>, stmt: seq<byte>, formats: seq<byte>, values: seq<Value>, results: seq<byte>)

  /** Where the parts of an accepted packet begin, and how many values it announces. */
  datatype Layout = Layout(stmt: nat, formats: nat, counts: nat, values: nat, count: nat, results: nat)

  // ----- the parts

  /** `get_uint16be`. */
  function U16(buf: seq<byte>, at: nat): (n: nat)
    requires at + 2 <= |buf|
    ensures n <= 0xFFFF
  {
    buf[at] as nat * 0x100 + buf[at + 1] as nat
  }

  function BE16(n: nat): (b: seq<byte>)
    requires n <= 0xFFFF
    ensures |b| == 2
  {
    [(n / 0x100) as byte, (n % 0x100) as byte]
  }

  lemma CountStands(buf: seq<byte>, at: nat, n: nat)
    requires n <= 0xFFFF
    ensures Stands(buf, at, BE16(n)) <==> at + 2 <= |buf| && U16(buf, at) == n
  {
    StandsSplit(buf, at, [(n / 0x100) as byte], [(n % 0x100) as byte]);
    ByteStands(buf, at, (n / 0x100) as byte);
    ByteStands(buf, at + 1, (n % 0x100) as byte);
    assert BE16(n) == [(n / 0x100) as byte] + [(n % 0x100) as byte];
    assert n == n / 0x100 * 0x100 + n % 0x100;
  }

  lemma ByteStands(buf: seq<byte>, at: nat, b: byte)
    ensures Stands(buf, at, [b]) <==> at < |buf| && buf[at] == b
  {
    if Stands(buf, at, [b]) {
      assert [b][0] == buf[at + 0];
    }
  }

  /** The place behind a terminated string, as `strnlen` finds it. */
  function NameEnd(buf: seq<byte>, at: nat): (r: Option<nat>)
    requires at <= |buf|
    ensures r.Some? ==> at < r.value <= |buf|
    decreases |buf| - at
  {
    if at == |buf| then None else if buf[at] == 0 then Some(at + 1) else NameEnd(buf, at + 1)
  }

  predicate IsName(name: seq<byte>) {
    0 as byte !in name
  }

  /** A name ends where its terminated form does. */
  lemma {:induction false} NameExact(buf: seq<byte>, at: nat, next: nat)
    requires at <= |buf|
    ensures NameEnd(buf, at) == Some(next)
      <==> at < next <= |buf| && buf[next - 1] == 0 && forall k :: at <= k < next - 1 ==> buf[k] != 0
    decreases |buf| - at
  {
    if at < |buf| && buf[at] != 0 {
      NameExact(buf, at + 1, next);
    }
  }

  lemma NameStands(buf: seq<byte>, at: nat, name: seq<byte>)
    requires IsName(name) && Stands(buf, at, name + [0])
    ensures NameEnd(buf, at) == Some(at + |name| + 1)
  {
    var next := at + |name| + 1;
    StandsSplit(buf, at, name, [0]);
    ByteStands(buf, at + |name|, 0);
    forall k | at <= k < next - 1 ensures buf[k] != 0 {
      assert name[k - at] == buf[at + (k - at)];
    }
    NameExact(buf, at, next);
  }

  lemma NameRead(buf: seq<byte>, at: nat, next: nat) returns (name: seq<byte>)
    requires at <= |buf| && NameEnd(buf, at) == Some(next)
    ensures IsName(name) && next == at + |name| + 1 && Stands(buf, at, name + [0])
  {
    NameExact(buf, at, next);
    name := buf[at..next - 1];
    ByteStands(buf, next - 1, 0);
    StandsSplit(buf, at, name, [0]);
  }

  /** The place behind a 16-bit count and that many 16-bit codes. */
  function CodesEnd(buf: seq<byte>, at: nat): (r: Option<nat>)
    ensures r.Some? ==> at + 2 <= r.value <= |buf|
  {
    if at + 2 > |buf| || at + 2 + 2 * U16(buf, at) > |buf| then None else Some(at + 2 + 2 * U16(buf, at))
  }

  predicate IsCodes(codes: seq<byte>) {
    |codes| % 2 == 0 && |codes| / 2 <= 0xFFFF
  }

  function EncodeCodes(codes: seq<byte>): (r: seq<byte>)
    requires IsCodes(codes)
    ensures |r| == 2 + |codes|
  {
    BE16(|codes| / 2) + codes
  }

  lemma CodesStand(buf: seq<byte>, at: nat, codes: seq<byte>)
    requires IsCodes(codes) && Stands(buf, at, EncodeCodes(codes))
    ensures CodesEnd(buf, at) == Some(at + 2 + |codes|)
  {
    StandsSplit(buf, at, BE16(|codes| / 2), codes);
    CountStands(buf, at, |codes| / 2);
  }

  lemma CodesRead(buf: seq<byte>, at: nat, next: nat) returns (codes: seq<byte>)
    requires CodesEnd(buf, at) == Some(next)
    ensures IsCodes(codes) && next == at + 2 + |codes| && Stands(buf, at, EncodeCodes(codes))
  {
    codes := buf[at + 2..next];
    CountStands(buf, at, |codes| / 2);
    StandsSplit(buf, at, BE16(|codes| / 2), codes);
  }

  // ----- the parser

  /** The fields in front of the values: names, format codes, the number of values. */
  function Front(buf: seq<byte>): (r: Option<Layout>)
    ensures r.Some? ==> r.value.values <= |buf| && r.value.count <= 0xFFFF
  {
    if |buf| < 5 || buf[0] != BIND || U32(buf, 1) != |buf| - 1 then None
    else match NameEnd(buf, NAMES)
      case None => None
      case Some(stmt) =>
        match NameEnd(buf, stmt)
        case None => None
        case Some(formats) =>
          match CodesEnd(buf, formats)
          case None => None
          case Some(counts) =>
            if counts + 2 > |buf| then None
            else Some(Layout(stmt, formats, counts, counts + 2, U16(buf, counts), 0))
  }

  /** What is accepted: the values end, by the walk, where result codes fill the packet. */
  function Accepted(buf: seq<byte>): Option<Layout> {
    match Front(buf)
    case None => None
    case Some(l) =>
      match Walk(buf, l.values, l.count)
      case None => None
      case Some(end) => if CodesEnd(buf, end) == Some(|buf|) then Some(l.(results := end)) else None
  }

  /** `PgSQL_Bind_Message::parse`, in its order of tests. */
  method ParseBind(buf: seq<byte>) returns (ok: bool, layout: Layout)
    requires |buf| < TWO32
    ensures Accepted(buf) == if ok then Some(layout) else None
  {
    layout := Layout(0, 0, 0, 0, 0, 0);
    if |buf| < 5 || buf[0] != BIND || U32(buf, 1) != |buf| - 1 {
      return false, layout;
    }
    var portal := NameEnd(buf, NAMES);
    if portal.None? {
      return false, layout;
    }
    var stmt := NameEnd(buf, portal.value);
    if stmt.None? {
      return false, layout;
    }
    var formats := CodesEnd(buf, stmt.value);
    if formats.None? || formats.value + 2 > |buf| {
      return false, layout;
    }
    var start, count := formats.value + 2, U16(buf, formats.value);
    var walked, end := CheckValues(buf, start, count);
    if !walked {
      return false, layout;
    }
    layout := Layout(portal.value, stmt.value, formats.value, start, count, end);
    ok := CodesEnd(buf, end) == Some(|buf|);
  }

  // ----- it accepts exactly the encodings

  ghost predicate PartsFit(m: Message) {
    && IsName(m.portal) && IsName(m.stmt) && IsCodes(m.formats) && IsCodes(m.results)
    && AllFit(m.values) && |m.values| <= 0xFFFF
  }

  ghost predicate Encodable(m: Message) {
    PartsFit(m) && |Payload(m)| + NAMES < TWO32
  }

  /** Everything behind the length. */
  ghost function Payload(m: Message): seq<byte>
    requires PartsFit(m)
  {
    (m.portal + [0]) + ((m.stmt + [0]) + (EncodeCodes(m.formats)
      + (BE16(|m.values|) + (Encode(m.values) + EncodeCodes(m.results)))))
  }

  ghost function EncodeMessage(m: Message): seq<byte>
    requires Encodable(m)
  {
    [BIND] + (BE32(|Payload(m)| + 4) + Payload(m))
  }

  /** Two names, codes and a count stand one behind the other at the places of `l`. */
  ghost predicate FrontLaid(buf: seq<byte>, portal: seq<byte>, stmt: seq<byte>, formats: seq<byte>, l: Layout)
    requires IsCodes(formats)
  {
    && Stands(buf, NAMES, portal + [0]) && l.stmt == NAMES + |portal| + 1
    && Stands(buf, l.stmt, stmt + [0]) && l.formats == l.stmt + |stmt| + 1
    && Stands(buf, l.formats, EncodeCodes(formats)) && l.counts == l.formats + 2 + |formats|
    && l.count <= 0xFFFF && Stands(buf, l.counts, BE16(l.count)) && l.values == l.counts + 2
  }

  /** Behind them the values, and result codes up to the end. */
  ghost predicate BackLaid(buf: seq<byte>, values: seq<Value>, results: seq<byte>, l: Layout)
    requires AllFit(values) && IsCodes(results)
  {
    && Stands(buf, l.values, Encode(values)) && l.results == l.values + |Encode(values)| && l.count == |values|
    && Stands(buf, l.results, EncodeCodes(results)) && l.results + 2 + |results| == |buf|
  }

  ghost predicate Laid(buf: seq<byte>, m: Message, l: Layout)
    requires PartsFit(m)
  {
    FrontLaid(buf, m.portal, m.stmt, m.formats, l) && BackLaid(buf, m.values, m.results, l)
  }

  ghost function LayoutOf(m: Message): Layout
    requires PartsFit(m)
  {
    var stmt := NAMES + |m.portal| + 1;
    var formats := stmt + |m.stmt| + 1;
    var counts := formats + 2 + |m.formats|;
    Layout(stmt, formats, counts, counts + 2, |m.values|, counts + 2 + |Encode(m.values)|)
  }

  lemma FrontSplits(buf: seq<byte>, portal: seq<byte>, stmt: seq<byte>, formats: seq<byte>, count: nat, last: seq<byte>)
    requires IsCodes(formats) && count <= 0xFFFF
    ensures var at := NAMES + |portal| + 1;
      var codes := at + |stmt| + 1;
      var counts := codes + 2 + |formats|;
      Stands(buf, NAMES, (portal + [0]) + ((stmt + [0]) + (EncodeCodes(formats) + (BE16(count) + last)))) <==>
        && Stands(buf, NAMES, portal + [0]) && Stands(buf, at, stmt + [0]) && Stands(buf, codes, EncodeCodes(formats))
        && Stands(buf, counts, BE16(count)) && Stands(buf, counts + 2, last)
  {
    var at := NAMES + |portal| + 1;
    var codes := at + |stmt| + 1;
    var tail := BE16(count) + last;
    StandsSplit(buf, codes + 2 + |formats|, BE16(count), last);
    StandsSplit(buf, codes, EncodeCodes(formats), tail);
    StandsSplit(buf, at, stmt + [0], EncodeCodes(formats) + tail);
    StandsSplit(buf, NAMES, portal + [0], (stmt + [0]) + (EncodeCodes(formats) + tail));
  }

  lemma PayloadLaid(buf: seq<byte>, m: Message)
    requires Encodable(m) && |buf| == NAMES + |Payload(m)|
    ensures Stands(buf, NAMES, Payload(m)) <==> Laid(buf, m, LayoutOf(m))
  {
    var values, results := Encode(m.values), EncodeCodes(m.results);
    FrontSplits(buf, m.portal, m.stmt, m.formats, |m.values|, values + results);
    StandsSplit(buf, LayoutOf(m).values, values, results);
  }

  /** The type and the length are right. */
  predicate Headed(buf: seq<byte>) {
    |buf| >= NAMES && buf[0] == BIND && U32(buf, 1) == |buf| - 1
  }

  lemma StandsIsEqual(buf: seq<byte>, x: seq<byte>)
    ensures buf == x <==> |buf| == |x| && Stands(buf, 0, x)
  {
    if |buf| == |x| && Stands(buf, 0, x) {
      assert forall k :: 0 <= k < |x| ==> x[k] == buf[0 + k];
    }
  }

  lemma HeaderSplits(buf: seq<byte>, n: nat, payload: seq<byte>)
    requires n < TWO32
    ensures Stands(buf, 0, [BIND] + (BE32(n) + payload))
      <==> |buf| >= NAMES && buf[0] == BIND && U32(buf, 1) == n && Stands(buf, NAMES, payload)
  {
    StandsSplit(buf, 0, [BIND], BE32(n) + payload);
    StandsSplit(buf, 1, BE32(n), payload);
    HeaderStands(buf, 1, n);
    ByteStands(buf, 0, BIND);
  }

  lemma PacketExact(buf: seq<byte>, payload: seq<byte>)
    requires |payload| + NAMES < TWO32
    ensures buf == [BIND] + (BE32(|payload| + 4) + payload)
      <==> Headed(buf) && |buf| == NAMES + |payload| && Stands(buf, NAMES, payload)
  {
    StandsIsEqual(buf, [BIND] + (BE32(|payload| + 4) + payload));
    HeaderSplits(buf, |payload| + 4, payload);
  }

  lemma EncodedIsLaid(buf: seq<byte>, m: Message)
    requires Encodable(m)
    ensures buf == EncodeMessage(m) <==> Headed(buf) && |buf| == NAMES + |Payload(m)| && Laid(buf, m, LayoutOf(m))
  {
    PacketExact(buf, Payload(m));
    if |buf| == NAMES + |Payload(m)| {
      PayloadLaid(buf, m);
    }
  }

  lemma FrontIsRead(buf: seq<byte>, portal: seq<byte>, stmt: seq<byte>, formats: seq<byte>, l: Layout)
    requires Headed(buf) && IsName(portal) && IsName(stmt) && IsCodes(formats)
    requires FrontLaid(buf, portal, stmt, formats, l)
    ensures Front(buf) == Some(l.(results := 0))
  {
    NameStands(buf, NAMES, portal);
    NameStands(buf, l.stmt, stmt);
    CodesStand(buf, l.formats, formats);
    CountStands(buf, l.counts, l.count);
  }

  lemma CompleteIsWalked(buf: seq<byte>, at: nat, count: nat)
    requires at <= |buf| < TWO32 && Parse(buf, at, count).Complete?
    ensures Walk(buf, at, count) == Some(Parse(buf, at, count).end)
  {
    WalkExact(buf, at, count);
  }

  lemma BackIsWalked(buf: seq<byte>, values: seq<Value>, results: seq<byte>, l: Layout)
    requires |buf| < TWO32 && AllFit(values) && IsCodes(results) && BackLaid(buf, values, results, l)
    ensures Parse(buf, l.values, l.count) == Complete(values, l.results)
    ensures Walk(buf, l.values, l.count) == Some(l.results) && CodesEnd(buf, l.results) == Some(|buf|)
  {
    RoundTrip(buf, l.values, values);
    CompleteIsWalked(buf, l.values, l.count);
    CodesStand(buf, l.results, results);
  }

  /** Every message that fits a packet is accepted, and its values are the ones that are read. */
  lemma MessageRoundTrip(m: Message)
    requires Encodable(m)
    ensures var buf := EncodeMessage(m);
      var l := LayoutOf(m);
      Accepted(buf) == Some(l) && Parse(buf, l.values, l.count) == Complete(m.values, l.results)
  {
    var buf, l := EncodeMessage(m), LayoutOf(m);
    EncodedIsLaid(buf, m);
    FrontIsRead(buf, m.portal, m.stmt, m.formats, l);
    BackIsWalked(buf, m.values, m.results, l);
  }

  lemma FrontIsLaid(buf: seq<byte>, l: Layout) returns (portal: seq<byte>, stmt: seq<byte>, formats: seq<byte>)
    requires Front(buf) == Some(l.(results := 0))
    ensures IsName(portal) && IsName(stmt) && IsCodes(formats) && FrontLaid(buf, portal, stmt, formats, l)
  {
    portal := NameRead(buf, NAMES, l.stmt);
    stmt := NameRead(buf, l.stmt, l.formats);
    formats := CodesRead(buf, l.formats, l.counts);
    CountStands(buf, l.counts, l.count);
  }

  lemma BackIsLaid(buf: seq<byte>, values: seq<Value>, l: Layout) returns (results: seq<byte>)
    requires l.values <= |buf| && Parse(buf, l.values, l.count) == Complete(values, l.results)
    requires CodesEnd(buf, l.results) == Some(|buf|)
    ensures AllFit(values) && IsCodes(results) && BackLaid(buf, values, results, l)
  {
    ReadIsEncoding(buf, l.values, l.count);
    results := CodesRead(buf, l.results, |buf|);
  }

  /** Parts that fill a packet make a message that fits it, laid out as `l` says. */
  lemma LaidFits(buf: seq<byte>, m: Message, l: Layout)
    requires |buf| < TWO32 && PartsFit(m) && Laid(buf, m, l)
    ensures Encodable(m) && l == LayoutOf(m) && |buf| == NAMES + |Payload(m)|
  {
  }

  lemma AcceptedParts(buf: seq<byte>, l: Layout)
    requires Accepted(buf) == Some(l)
    ensures Headed(buf) && Front(buf) == Some(l.(results := 0)) && l.values <= |buf|
    ensures Walk(buf, l.values, l.count) == Some(l.results) && CodesEnd(buf, l.results) == Some(|buf|)
  {
  }

  /** Conversely, an accepted packet whose values can be read is the encoding of a message with these values. */
  lemma AcceptedIsEncoding(buf: seq<byte>, l: Layout, values: seq<Value>) returns (m: Message)
    requires |buf| < TWO32 && Accepted(buf) == Some(l) && Parse(buf, l.values, l.count) == Complete(values, l.results)
    ensures Encodable(m) && buf == EncodeMessage(m) && m.values == values && l == LayoutOf(m)
  {
    AcceptedParts(buf, l);
    var results := BackIsLaid(buf, values, l);
    var portal, stmt, formats := FrontIsLaid(buf, l);
    m := Message(portal, stmt, formats, values, results);
    LaidFits(buf, m, l);
    EncodedIsLaid(buf, m);
  }

  // ----- where the wrap-around of the walk lets a message through

  /** The parser accepts no packet of this size whose values run past its end. */
  ghost predicate SoundForMessages(size: nat) {
    forall buf: seq<byte> :: |buf| == size && Accepted(buf).Some? ==>
      !Parse(buf, Accepted(buf).value.values, Accepted(buf).value.count).Truncated?
  }

  const HALF: nat := INT32_MAX + 1
  const FIRST_LEN: nat := INT32_MAX - 22
  const SECOND: nat := 15 + FIRST_LEN

  /** `x` written over `buf` from `at` on: everything that stood beside it still does. */
  lemma Overlay(buf: seq<byte>, at: nat, x: seq<byte>) returns (r: seq<byte>)
    requires at + |x| <= |buf|
    ensures |r| == |buf| && Stands(r, at, x)
    ensures forall k: nat, y :: Stands(buf, k, y) && (k + |y| <= at || at + |x| <= k) ==> Stands(r, k, y)
  {
    r := buf[..at] + x + buf[at + |x|..];
    assert forall i :: 0 <= i < |x| ==> r[at + i] == x[i];
    assert forall i :: 0 <= i < at || at + |x| <= i < |buf| ==> r[i] == buf[i];
  }

  /** Where the walk goes from the first byte of the packet: type and length read as a length. */
  function Back(size: nat): nat {
    4 + 0x4200_0000 + (size - 1) / 0x100
  }

  /** Where the packet's result codes are, away from everything else. */
  function Codes(size: nat): (q: int)
    requires HALF < size < TWO32
    ensures Back(size) + 4 <= q && q + 2 <= size - 4 && (q + 2 <= SECOND || q >= SECOND + 4)
  {
    if size < HALF + 0x100 then size - 0x202 else size - 6
  }

  /** The first fifteen bytes: empty names, no format codes, five values, the first one's length. */
  function Head(size: nat): (x: seq<byte>)
    requires HALF < size < TWO32
    ensures |x| == 15
  {
    [BIND] + (BE32(size - 1) + ([0, 0, 0, 0] + (BE16(5) + BE32(FIRST_LEN))))
  }

  /** What the message consists of: its head, three more lengths, the length at `p`, the codes at `q`. */
  ghost predicate Made(buf: seq<byte>, p: nat, q: nat) {
    && HALF < |buf| < TWO32 && p == Back(|buf|) && q == Codes(|buf|)
    && Stands(buf, 0, Head(|buf|)) && Stands(buf, p, BE32(q - p - 4)) && Stands(buf, SECOND, BE32(|buf| - HALF))
    && Stands(buf, q, BE16((|buf| - q - 2) / 2)) && Stands(buf, |buf| - 4, BE32(TWO32 - |buf|))
  }

  /** Five pieces that do not touch each other in a packet of `size` bytes. */
  lemma Compose(size: nat, head: seq<byte>, p: nat, x: seq<byte>, second: seq<byte>, q: nat, codes: seq<byte>,
                last: seq<byte>)
    returns (buf: seq<byte>)
    requires |head| == 15 <= p && |x| == 4 && p + 4 <= q && |codes| == 2 && q + 2 <= size - 4 && |last| == 4
    requires |second| == 4 && p + 4 <= SECOND && SECOND + 4 <= size - 4 && (q + 2 <= SECOND || SECOND + 4 <= q)
    ensures |buf| == size && Stands(buf, 0, head) && Stands(buf, p, x) && Stands(buf, SECOND, second)
    ensures Stands(buf, q, codes) && Stands(buf, size - 4, last)
  {
    buf := Overlay(seq(size, _ => 0 as byte), size - 4, last);
    buf := Overlay(buf, q, codes);
    buf := Overlay(buf, SECOND, second);
    buf := Overlay(buf, p, x);
    buf := Overlay(buf, 0, head);
  }

  /**
   * A Bind message with five values. Two fill the packet up to its last four bytes; the
   * third announces just enough to run the sum over, back to the first byte; from there two
   * more lead to the result codes.
   */
  lemma MakeMessage(size: nat) returns (buf: seq<byte>)
    requires HALF < size < TWO32
    ensures |buf| == size && Made(buf, Back(size), Codes(size))
  {
    var p, q := Back(size), Codes(size);
    buf := Compose(size, Head(size), p, BE32(q - p - 4), BE32(size - HALF), q, BE16((size - q - 2) / 2),
                   BE32(TWO32 - size));
  }

  lemma HeadSplits(buf: seq<byte>)
    requires HALF < |buf| < TWO32 && Stands(buf, 0, Head(|buf|))
    ensures Headed(buf) && Stands(buf, 1, BE32(|buf| - 1)) && Stands(buf, 5, [0, 0, 0, 0])
    ensures U16(buf, 9) == 5 && U32(buf, 11) == FIRST_LEN
  {
    var values := BE16(5) + BE32(FIRST_LEN);
    var names := [0, 0, 0, 0] + values;
    StandsSplit(buf, 0, [BIND], BE32(|buf| - 1) + names);
    StandsSplit(buf, 1, BE32(|buf| - 1), names);
    StandsSplit(buf, 5, [0, 0, 0, 0], values);
    StandsSplit(buf, 9, BE16(5), BE32(FIRST_LEN));
    ByteStands(buf, 0, BIND);
    HeaderStands(buf, 1, |buf| - 1);
    HeaderStands(buf, 11, FIRST_LEN);
    CountStands(buf, 9, 5);
  }

  lemma HeadIsRead(buf: seq<byte>)
    requires Headed(buf) && |buf| >= 11 && Stands(buf, 5, [0, 0, 0, 0]) && U16(buf, 9) == 5
    ensures Front(buf) == Some(Layout(6, 7, 9, 11, 5, 0))
  {
    var x: seq<byte> := [0, 0, 0, 0];
    assert x[0] == buf[5 + 0] && x[1] == buf[5 + 1] && x[2] == buf[5 + 2] && x[3] == buf[5 + 3];
  }

  lemma HeadAsLength(buf: seq<byte>, n: nat)
    requires n < TWO32 && |buf| >= 5 && buf[0] == BIND && Stands(buf, 1, BE32(n))
    ensures U32(buf, 0) == 0x4200_0000 + n / 0x100
  {
    var x := BE32(n);
    assert x[0] == buf[1 + 0] && x[1] == buf[1 + 1] && x[2] == buf[1 + 2];
    TypeAndLength(n);
  }

  lemma TypeAndLength(n: nat)
    requires n < TWO32
    ensures BE32(n)[0] as nat * 0x1_0000 + BE32(n)[1] as nat * 0x100 + BE32(n)[2] as nat == n / 0x100
  {
    var a := n / 0x100;
    assert n / 0x1_0000 == a / 0x100 && n / 0x100_0000 == a / 0x100 / 0x100;
    var b := a / 0x100;
    assert a == b * 0x100 + a % 0x100 && b == b / 0x100 * 0x100 + b % 0x100;
  }

  lemma WalkPlain(buf: seq<byte>, at: nat, len: nat)
    requires at + 4 + len <= |buf| < TWO32 && U32(buf, at) == len
    ensures WalkOne(buf, at) == Some(at + 4 + len)
    ensures len <= INT32_MAX ==> First(buf, at).Read? && First(buf, at).next == at + 4 + len
  {
  }

  lemma WalkStep(buf: seq<byte>, at: nat, next: nat, count: nat)
    requires WalkOne(buf, at) == Some(next)
    ensures Walk(buf, at, count + 1) == Walk(buf, next, count)
  {
  }

  lemma ParseStep(buf: seq<byte>, at: nat, count: nat)
    ensures First(buf, at).Short? ==> Parse(buf, at, count + 1).Truncated?
    ensures First(buf, at).Read? && Parse(buf, First(buf, at).next, count).Truncated?
      ==> Parse(buf, at, count + 1).Truncated?
  {
  }

  /** The third value: just enough to run the sum over. */
  lemma LastIsThrownBack(buf: seq<byte>)
    requires HALF < |buf| < TWO32 && U32(buf, |buf| - 4) == TWO32 - |buf|
    ensures WalkOne(buf, |buf| - 4) == Some(0) && First(buf, |buf| - 4).Short?
  {
    WalkOneExact(buf, |buf| - 4);
  }

  /** The lengths the walk meets: two values up to the last four bytes, back to the start, by `p` to `q`. */
  ghost predicate Trap(buf: seq<byte>, p: nat, q: nat) {
    && HALF < |buf| < TWO32 && 4 <= p <= q - 4 && q <= |buf|
    && U32(buf, 11) == FIRST_LEN && U32(buf, SECOND) == |buf| - HALF && U32(buf, |buf| - 4) == TWO32 - |buf|
    && U32(buf, 0) == p - 4 && U32(buf, p) == q - p - 4
  }

  /** Reading the values leaves the packet at the third. */
  lemma TrapIsTruncated(buf: seq<byte>, p: nat, q: nat, left: nat)
    requires Trap(buf, p, q)
    ensures Parse(buf, 11, left + 3).Truncated?
  {
    WalkPlain(buf, 11, FIRST_LEN);
    WalkPlain(buf, SECOND, |buf| - HALF);
    LastIsThrownBack(buf);
    ParseStep(buf, |buf| - 4, left);
    ParseStep(buf, SECOND, left + 1);
    ParseStep(buf, 11, left + 2);
  }

  lemma TrapThrowsBack(buf: seq<byte>, p: nat, q: nat, left: nat)
    requires Trap(buf, p, q)
    ensures Walk(buf, 11, left + 3) == Walk(buf, 0, left)
  {
    WalkPlain(buf, 11, FIRST_LEN);
    WalkPlain(buf, SECOND, |buf| - HALF);
    LastIsThrownBack(buf);
    WalkStep(buf, 11, SECOND, left + 2);
    WalkStep(buf, SECOND, |buf| - 4, left + 1);
    WalkStep(buf, |buf| - 4, 0, left);
  }

  lemma TrapIsWalked(buf: seq<byte>, p: nat, q: nat, left: nat)
    requires Trap(buf, p, q)
    ensures Walk(buf, 11, left + 5) == Walk(buf, q, left)
  {
    TrapThrowsBack(buf, p, q, left + 2);
    WalkPlain(buf, 0, p - 4);
    WalkPlain(buf, p, q - p - 4);
    WalkStep(buf, 0, p, left + 1);
    WalkStep(buf, p, q, left);
  }

  lemma TrapIsAccepted(buf: seq<byte>, p: nat, q: nat, l: Layout)
    requires Trap(buf, p, q) && Front(buf) == Some(l) && l.values == 11 && l.count == 5
    requires CodesEnd(buf, q) == Some(|buf|)
    ensures Accepted(buf) == Some(l.(results := q))
  {
    TrapIsWalked(buf, p, q, l.count - 5);
  }

  lemma LengthIsRead(buf: seq<byte>, at: nat, n: nat)
    requires n < TWO32 && Stands(buf, at, BE32(n))
    ensures at + 4 <= |buf| && U32(buf, at) == n
  {
    HeaderStands(buf, at, n);
  }

  lemma CodesAreRead(buf: seq<byte>, q: nat)
    requires q <= |buf| - 6 && (|buf| - q) % 2 == 0 && |buf| - q <= 0x1_0000
    requires Stands(buf, q, BE16((|buf| - q - 2) / 2))
    ensures CodesEnd(buf, q) == Some(|buf|)
  {
    CountStands(buf, q, (|buf| - q - 2) / 2);
  }

  lemma HeadFront(buf: seq<byte>)
    requires HALF < |buf| < TWO32 && Stands(buf, 0, Head(|buf|))
    ensures Front(buf) == Some(Layout(6, 7, 9, 11, 5, 0))
  {
    HeadSplits(buf);
    HeadIsRead(buf);
  }

  lemma HeadLengths(buf: seq<byte>)
    requires HALF < |buf| < TWO32 && Stands(buf, 0, Head(|buf|))
    ensures U32(buf, 11) == FIRST_LEN && U32(buf, 0) == Back(|buf|) - 4
  {
    HeadSplits(buf);
    HeadAsLength(buf, |buf| - 1);
  }

  lemma MadeLengths(buf: seq<byte>, p: nat, q: nat)
    requires Made(buf, p, q)
    ensures U32(buf, p) == q - p - 4 && U32(buf, SECOND) == |buf| - HALF && U32(buf, |buf| - 4) == TWO32 - |buf|
  {
    LengthIsRead(buf, p, q - p - 4);
    LengthIsRead(buf, SECOND, |buf| - HALF);
    LengthIsRead(buf, |buf| - 4, TWO32 - |buf|);
  }

  lemma MadeIsTrap(buf: seq<byte>, p: nat, q: nat)
    requires Made(buf, p, q)
    ensures Trap(buf, p, q) && CodesEnd(buf, q) == Some(|buf|)
  {
    MadeLengths(buf, p, q);
    HeadLengths(buf);
    CodesAreRead(buf, q);
  }

  /** For every larger size there is a message the parser accepts although its values leave the packet. */
  lemma OverrunningMessageIsAccepted(size: nat) returns (buf: seq<byte>)
    requires HALF < size < TWO32
    ensures |buf| == size && Accepted(buf) == Some(Layout(6, 7, 9, 11, 5, Codes(size)))
    ensures Parse(buf, 11, 5).Truncated?
  {
    var p, q := Back(size), Codes(size);
    buf := MakeMessage(size);
    MadeIsTrap(buf, p, q);
    HeadFront(buf);
    TrapIsAccepted(buf, p, q, Layout(6, 7, 9, 11, 5, 0));
    TrapIsTruncated(buf, p, q, 2);
  }

  /** Of all packet sizes, exactly those up to 2^31 are safe with this parser. */
  lemma MessagesSoundExactlyUpTo2G(size: nat)
    requires size < TWO32
    ensures SoundForMessages(size) <==> size <= HALF
  {
    if size <= HALF {
      SoundExactlyUpTo2G(size);
    } else {
      var buf := OverrunningMessageIsAccepted(size);
      assert Accepted(buf).Some?;
    }
  }

  /**
   * Parse, then bind: what a client encoded is what is bound, and up to 2^31 bytes nothing
   * outside the packet is read, whatever the client sent.
   */
  method BindPacket(buf: seq<byte>) returns (r: Bound)
    requires |buf| < TWO32
    ensures forall m :: Encodable(m) && buf == EncodeMessage(m) ==> r == Values(m.values)
    ensures Accepted(buf).None? <==> r == Rejected
    ensures |buf| <= HALF ==> r != ReadOutside
  {
    forall m | Encodable(m) && buf == EncodeMessage(m)
      ensures Accepted(buf) == Some(LayoutOf(m))
      ensures Parse(buf, LayoutOf(m).values, LayoutOf(m).count) == Complete(m.values, LayoutOf(m).results)
    {
      MessageRoundTrip(m);
    }
    MessagesSoundExactlyUpTo2G(|buf|);
    var ok, l := ParseBind(buf);
    if !ok {
      return Rejected;
    }
    var ending, values, _ := ReadAll(buf, l.values, l.count);
    match ending
    case AllRead => return Values(values);
    case LengthRefused => return Refused;
    case Outside => return ReadOutside;
  }
}
