/**
 * The output side of a client data stream: packets queued for the client leave through
 * a fixed send buffer, or directly from the packet list by one vectored write that the
 * kernel may cut short anywhere.
 */
module DirectWrite {
  import opened Bytes
  import opened Common

  const MAX_IOV: nat := 64
  const QUEUE_SIZE: nat := 32768

  /** What the kernel answers: bytes taken, would block, or a fatal error. */
  datatype Sent = Accepted(n: nat) | WouldBlock | Broken

  /** Bytes of the first `i` packets that are still to be sent. */
  function Ahead(out: seq<Packet>, partial: nat, i: nat): nat
    requires i <= |out|
  {
    Max(0, Size(out, i) - partial)
  }

  /** An empty packet that building the view runs into. */
  ghost predicate Obstacle(out: seq<Packet>, partial: nat, budget: nat, i: nat) {
    i < |out| && i < MAX_IOV && |out[i]| == 0 && Ahead(out, partial, i) < budget
  }

  lemma AheadStep(out: seq<Packet>, partial: nat, i: nat)
    requires i < |out| && (partial == 0 || partial < |out[0]|)
    ensures Ahead(out, partial, i + 1) == Ahead(out, partial, i) + |out[i]| - (if i == 0 then partial else 0)
    ensures i > 0 ==> partial <= Size(out, i)
  {
    if i > 0 {
      SizeGrows(out, 1, i);
    }
  }

  /** More packets in front never hide earlier bytes. */
  lemma AheadMonotone(out: seq<Packet>, partial: nat, i: nat, j: nat)
    requires i <= j <= |out|
    ensures Ahead(out, partial, i) <= Ahead(out, partial, j)
  {
    SizeGrows(out, i, j);
  }

  function Budget(byteBudget: nat): (b: nat)
    ensures b > 0
  {
    if byteBudget == 0 then QUEUE_SIZE else byteBudget
  }

  /** An empty packet stands where a view would have to pass. */
  ghost predicate Blocked(out: seq<Packet>, partial: nat, byteBudget: nat) {
    exists i :: Obstacle(out, partial, Budget(byteBudget), i)
  }

  /** How many bytes a direct write offers the kernel. */
  ghost function Offered(out: seq<Packet>, partial: nat, byteBudget: nat): nat {
    if out == [] || Blocked(out, partial, byteBudget) then 0
    else Min(Budget(byteBudget), Ahead(out, partial, Min(MAX_IOV, |out|)))
  }

  /** Something is offered exactly when there is a packet and none of those in reach is empty. */
  lemma OfferedExact(out: seq<Packet>, partial: nat, byteBudget: nat)
    requires partial > 0 ==> out != [] && partial < |out[0]|
    ensures Offered(out, partial, byteBudget) > 0 <==> out != [] && !Blocked(out, partial, byteBudget)
  {
    if out != [] && !Blocked(out, partial, byteBudget) {
      assert !Obstacle(out, partial, Budget(byteBudget), 0);
      AheadStep(out, partial, 0);
      AheadMonotone(out, partial, 1, Min(MAX_IOV, |out|));
    }
  }

  /** `polardb_build_writev_view`: slices of the head packets, up to the budget and the vector limit. */
  method BuildView(out: seq<Packet>, partial: nat, byteBudget: nat) returns (view: Option<seq<Packet>>)
    requires partial > 0 ==> out != [] && partial < |out[0]|
    ensures view.None? <==> Offered(out, partial, byteBudget) == 0
    ensures view.Some? ==>
      && 0 < |view.value| <= MAX_IOV
      && |Flat(view.value)| == Offered(out, partial, byteBudget) <= |Flat(out)| - partial
      && Flat(view.value) == Flat(out)[partial..][..|Flat(view.value)|]
  {
    if out == [] {
      return None;
    }
    var budget := Budget(byteBudget);
    var iov: seq<Packet>, total: nat, i: nat := [], 0, 0;
    ViewStarts(out, partial, budget);
    while i < |out| && |iov| < MAX_IOV && total < budget
      invariant ViewSoFar(out, partial, budget, i, iov, total)
    {
      var offset := if i == 0 then partial else 0;
      if offset >= |out[i]| {
        assert Obstacle(out, partial, budget, i);
        return None;
      }
      var len := Min(|out[i]| - offset, budget - total);
      ViewGrows(out, partial, budget, i, iov, total, len);
      iov := iov + [out[i][offset..offset + len]];
      total := total + len;
      i := i + 1;
    }
    ViewEnds(out, partial, byteBudget, i, iov, total);
    return Some(iov);
  }

  /** The view after `i` packets: one slice each, covering what they still have to send up to the budget. */
  ghost predicate ViewSoFar(out: seq<Packet>, partial: nat, budget: nat, i: nat, iov: seq<Packet>, total: nat) {
    && i <= |out| && |iov| == i <= MAX_IOV && (i > 0 ==> total > 0)
    && total == Min(budget, Ahead(out, partial, i))
    && (forall j :: 0 <= j < i ==> |out[j]| > 0)
    && total <= |Flat(out)| - partial && Flat(iov) == Flat(out)[partial..][..total]
  }

  lemma ViewStarts(out: seq<Packet>, partial: nat, budget: nat)
    requires out != [] && (partial > 0 ==> partial < |out[0]|)
    ensures ViewSoFar(out, partial, budget, 0, [], 0)
  {
    FlatFrom(out, 0);
  }

  lemma ViewGrows(out: seq<Packet>, partial: nat, budget: nat, i: nat, iov: seq<Packet>, total: nat, len: nat)
    requires ViewSoFar(out, partial, budget, i, iov, total) && i < |out| && i < MAX_IOV && total < budget
    requires (partial == 0 || partial < |out[0]|) && (if i == 0 then partial else 0) < |out[i]|
    requires len == Min(|out[i]| - (if i == 0 then partial else 0), budget - total)
    ensures var offset := if i == 0 then partial else 0;
      ViewSoFar(out, partial, budget, i + 1, iov + [out[i][offset..offset + len]], total + len)
  {
    var offset := if i == 0 then partial else 0;
    AheadStep(out, partial, i);
    SliceExtends(out, partial, i, total, len);
    FlatPush(iov, out[i][offset..offset + len]);
  }

  /** When the loop stops, the view is all that may be offered. */
  lemma ViewEnds(out: seq<Packet>, partial: nat, byteBudget: nat, i: nat, iov: seq<Packet>, total: nat)
    requires out != [] && (partial > 0 ==> partial < |out[0]|)
    requires ViewSoFar(out, partial, Budget(byteBudget), i, iov, total)
    requires i == |out| || i == MAX_IOV || total == Budget(byteBudget)
    ensures total == Offered(out, partial, byteBudget) > 0
  {
    NothingInTheWay(out, partial, Budget(byteBudget), i);
    AheadMonotone(out, partial, i, Min(MAX_IOV, |out|));
    OfferedExact(out, partial, byteBudget);
  }

  lemma NothingInTheWay(out: seq<Packet>, partial: nat, budget: nat, i: nat)
    requires i <= |out| && (partial > 0 ==> out != [] && partial < |out[0]|)
    requires forall j :: 0 <= j < i ==> |out[j]| > 0
    requires i == |out| || i >= MAX_IOV || Ahead(out, partial, i) >= budget
    ensures !exists j :: Obstacle(out, partial, budget, j)
  {
    forall j: nat ensures !Obstacle(out, partial, budget, j) {
      if i <= j < |out| {
        AheadMonotone(out, partial, i, j);
      }
    }
  }

  /** How many packets `accepted` bytes complete, and how far they reach into the next one. */
  method CountAccepted(packets: seq<Packet>, partial: nat, accepted: nat) returns (full: nat, cut: nat)
    requires partial + accepted <= Size(packets, |packets|)
    requires partial > 0 ==> packets != [] && partial < |packets[0]|
    ensures full <= |packets| && Size(packets, full) + cut == partial + accepted
    ensures cut > 0 ==> full < |packets| && cut < |packets[full]|
  {
    var bytes := accepted;
    full, cut := 0, partial;
    while bytes > 0 && full < |packets|
      invariant full <= |packets| && 0 <= bytes && Size(packets, full) + cut + bytes == partial + accepted
      invariant cut > 0 ==> full < |packets| && cut < |packets[full]|
      invariant cut > 0 && full > 0 ==> bytes == 0
      decreases bytes, |packets| - full
    {
      var offset := if full == 0 then cut else 0;
      var remaining := |packets[full]| - offset;
      if bytes < remaining {
        cut, bytes := offset + bytes, 0;
        break;
      }
      bytes := bytes - remaining;
      cut, full := 0, full + 1;
    }
  }

  /** What follows position `cut` of packet `full` is what follows that byte of the whole list. */
  lemma FlatAfter(ps: seq<Packet>, full: nat, cut: nat)
    requires full <= |ps| && (cut > 0 ==> full < |ps| && cut < |ps[full]|)
    ensures Size(ps, full) + cut <= |Flat(ps)| && cut <= |Flat(ps[full..])|
    ensures Flat(ps[full..])[cut..] == Flat(ps)[Size(ps, full) + cut..]
  {
    FlatSplit(ps, full);
    if cut > 0 {
      FlatFrom(ps[full..], cut);
    }
    DropConcat(Flat(ps[..full]), Flat(ps[full..]), cut);
  }

  lemma DropConcat(a: seq<byte>, b: seq<byte>, n: nat)
    requires n <= |b|
    ensures (a + b)[|a| + n..] == b[n..]
  {
  }

  // ----- the stream

  /** The client's end of the connection; only the kernel appends to it. */
  class Socket {
    ghost var wire: seq<byte>

    constructor ()
      ensures wire == []
    {
      wire := [];
    }

    /** One `sendmsg` or `send`: the kernel takes a prefix of what it is offered, or refuses. */
    method Send(iov: seq<Packet>, answer: Sent) returns (n: int)
      modifies this
      ensures n == if answer.Accepted? then Min(answer.n, |Flat(iov)|) else -1
      ensures wire == old(wire) + Flat(iov)[..Max(n, 0)]
    {
      n := if answer.Accepted? then Min(answer.n, |Flat(iov)|) else -1;
      wire := wire + Flat(iov)[..Max(n, 0)];
    }
  }

  /** Whether the direct path is worthwhile: resuming, two packets, or one too large to buffer. */
  predicate Worthwhile(out: seq<Packet>, headPartial: nat) {
    headPartial != 0 || |out| >= 2 || (|out| == 1 && |out[0]| > QUEUE_SIZE)
  }

  class DataStream {
    const socket: Socket
    var out: seq<Packet>           // PSarrayOUT
    var headPartial: nat           // polardb_write_head_partial
    const buffer: array<byte>      // queueOUT
    var head: nat
    var tail: nat
    var pkt: Option<Packet>        // the packet being copied into the buffer
    var partial: nat               // how much of it has been copied
    var netFailure: bool

    ghost predicate Valid()
      reads this, buffer
    {
      && tail <= head <= buffer.Length && buffer.Length == QUEUE_SIZE
      && (tail == head ==> head == 0)
      && (pkt.None? ==> partial == 0)
      && (pkt.Some? ==> 0 < partial < |pkt.value|)
      && (headPartial > 0 ==> out != [] && headPartial < |out[0]| && tail == head && pkt.None?)
    }

    /** Packets not yet handed to the kernel or to the buffered path. */
    ghost function Unsent(): seq<byte>
      reads this
    {
      if headPartial <= |Flat(out)| then Flat(out)[headPartial..] else []
    }

    ghost function Copying(): seq<byte>
      reads this
    {
      if pkt.Some? && partial <= |pkt.value| then pkt.value[partial..] else []
    }

    ghost function Buffered(): seq<byte>
      reads this, buffer
    {
      if tail <= head <= buffer.Length then buffer[tail..head] else []
    }

    /** Everything queued and not sent, in the order it will be sent. */
    ghost function Pending(): seq<byte>
      reads this, buffer
    {
      Buffered() + Copying() + Unsent()
    }

    ghost function View(): Snap
      reads this, buffer, socket
    {
      Snap(socket.wire, Pending(), out, headPartial, |Buffered()|, |Copying()|, head == QUEUE_SIZE, netFailure)
    }

    lemma ViewIsOk()
      requires Valid()
      ensures SnapOk(View())
    {
      if headPartial > 0 {
        FlatFrom(out, 0);
      }
    }

    constructor ()
      ensures Valid() && fresh(buffer) && fresh(socket)
      ensures View() == Snap([], [], [], 0, 0, 0, false, false)
    {
      socket := new Socket();
      buffer := new byte[QUEUE_SIZE];
      out, headPartial, head, tail, pkt, partial, netFailure := [], 0, 0, 0, None, 0, false;
    }

    /** A packet joins the end of the output list. */
    method Queue(p: Packet)
      requires Valid()
      modifies this`out
      ensures Valid() && out == old(out) + [p] && Pending() == old(Pending()) + p
    {
      FlatPush(out, p);
      if headPartial > 0 {
        FlatFrom(out, 0);
      }
      PushMoves(Buffered() + Copying(), Flat(out), headPartial, p);
      out := out + [p];
    }

    method BatchReady() returns (ready: bool)
      ensures ready <==> Worthwhile(out, headPartial)
    {
      if headPartial != 0 {
        return true;
      }
      var pending, packets, i := 0, 0, 0;
      while i < |out|
        invariant 0 <= i <= |out| && packets == i <= 1
        invariant i == 0 ==> pending == 0
        invariant i == 1 ==> |out[0]| <= QUEUE_SIZE && pending == |out[0]|
      {
        packets := packets + 1;
        if packets >= 2 {
          return true;
        }
        if |out[i]| > QUEUE_SIZE || pending > QUEUE_SIZE - |out[i]| {
          return true;
        }
        pending := pending + |out[i]|;
        i := i + 1;
      }
      return false;
    }

    /** Whether it is safe. `open`: a live, plain-text, idle client socket registered for polling. */
    predicate CanWriteDirect(enabled: bool, open: bool)
      reads this
    {
      (enabled || headPartial != 0) && open && !netFailure && out != [] && head == tail && partial == 0 && pkt.None?
    }

    // ----- the direct path

    /** `polardb_apply_accepted_write_bytes`: completed packets leave, a cut one keeps its offset. */
    method ApplyAccepted(accepted: nat) returns (full: nat)
      requires headPartial <= |Flat(out)| && accepted <= |Unsent()|
      requires headPartial > 0 ==> out != [] && headPartial < |out[0]|
      modifies this`out, this`headPartial
      ensures Unsent() == old(Unsent())[accepted..]
      ensures headPartial > 0 ==> out != [] && headPartial < |out[0]|
      ensures full <= |old(out)| && out == old(out)[full..]
    {
      var cut;
      FlatSize(out);
      full, cut := CountAccepted(out, headPartial, accepted);
      FlatAfter(out, full, cut);
      DropTwice(Flat(out), headPartial, accepted);
      headPartial := cut;
      out := out[full..];
    }

    /** With nothing buffered, the packet list is all there is to send. */
    lemma OnlyUnsent()
      requires tail == head <= buffer.Length && pkt.None?
      ensures Buffered() == [] && Copying() == [] && Pending() == Unsent()
    {
    }

    /** Build the view and give it to the kernel, if there is one. */
    method OfferView(byteBudget: nat, answer: Sent) returns (offered: bool, n: int)
      requires Valid() && tail == head && pkt.None?
      modifies socket
      ensures offered <==> Offered(out, headPartial, byteBudget) > 0
      ensures !offered ==> socket.wire == old(socket.wire)
      ensures offered ==>
        && n == (if answer.Accepted? then Min(answer.n, Offered(out, headPartial, byteBudget)) else -1)
        && Max(n, 0) <= |Pending()| && socket.wire == old(socket.wire) + Pending()[..Max(n, 0)]
    {
      OnlyUnsent();
      var view := BuildView(out, headPartial, byteBudget);
      if view.None? {
        return false, 0;
      }
      n := socket.Send(view.value, answer);
      PrefixOfPrefix(Flat(view.value), Unsent(), Max(n, 0));
      offered := true;
    }

    /** `polardb_writev_to_net_poll_unchecked`: offer a view, keep exactly what the kernel refused. */
    method WriteDirect(byteBudget: nat, answer: Sent) returns (rc: int)
      requires Valid() && tail == head && pkt.None?
      modifies this`out, this`headPartial, this`netFailure, socket
      ensures Valid() && OnlyFrom(out, old(out))
      ensures rc == Result(old(Offered(out, headPartial, byteBudget)), answer, 0)
      ensures Max(rc, 0) <= |old(Pending())|
      ensures socket.wire == old(socket.wire) + old(Pending())[..Max(rc, 0)]
      ensures Pending() == old(Pending())[Max(rc, 0)..]
      ensures netFailure == (old(netFailure) || (answer.Broken? && old(Offered(out, headPartial, byteBudget)) > 0))
    {
      NothingMoves(socket.wire, Pending());
      var offered, n := OfferView(byteBudget, answer);
      if !offered {
        return 0;
      }
      if n < 0 {
        if answer.WouldBlock? {
          return -1;
        }
        netFailure := true;
        return 0;
      }
      if n == 0 {
        return 0;
      }
      DropAccepted(n);
      return n;
    }

    /** Nothing but the accepted bytes leaves the pending stream. */
    method DropAccepted(n: nat)
      requires tail == head <= buffer.Length && pkt.None? && n <= |Pending()|
      requires headPartial > 0 ==> out != [] && headPartial < |out[0]|
      modifies this`out, this`headPartial
      ensures headPartial > 0 ==> out != [] && headPartial < |out[0]|
      ensures Pending() == old(Pending())[n..] && OnlyFrom(out, old(out))
    {
      OnlyUnsent();
      if headPartial > 0 {
        FlatFrom(out, 0);
      }
      var full := ApplyAccepted(n);
      OnlyUnsent();
    }

    // ----- the buffered path

    /** `queue_w` after a copy: `src` joins the buffered bytes. */
    method Append(src: seq<byte>)
      requires tail <= head && head + |src| <= buffer.Length
      modifies this`head, buffer
      ensures head == old(head) + |src| && Buffered() == old(Buffered()) + src
    {
      forall k | 0 <= k < |src| {
        buffer[head + k] := src[k];
      }
      head := head + |src|;
    }

    /** Fetch the next packet of the list as the one being copied. */
    method TakePacket()
      requires out != [] && pkt.None? && partial == 0 && headPartial == 0
      modifies this`out, this`pkt
      ensures out == old(out)[1..] && pkt == Some(old(out)[0]) && Pending() == old(Pending())
    {
      TakeMoves(Buffered(), out);
      pkt, out := Some(out[0]), out[1..];
      assert pkt.value[0..] == pkt.value && Flat(out)[0..] == Flat(out);
    }

    /** Copy what fits of the packet in progress; a finished packet is retired. */
    method CopyPart() returns (b: nat)
      requires tail <= head < buffer.Length && pkt.Some? && partial <= |pkt.value|
      modifies this`head, this`pkt, this`partial, buffer
      ensures head == old(head) + b <= buffer.Length && Pending() == old(Pending())
      ensures pkt.None? ==> partial == 0
      ensures pkt.Some? ==> 0 < partial < |pkt.value|
      ensures old(partial) < |old(pkt).value| ==> b > 0
    {
      ghost var data, rest := Buffered(), Copying();
      b := Min(|pkt.value| - partial, buffer.Length - head);
      var part := pkt.value[partial..partial + b];
      assert part == rest[..b] && pkt.value[partial + b..] == rest[b..];
      Append(part);
      partial := partial + b;
      if partial == |pkt.value| {
        pkt := None;
        partial := 0;
      }
      assert Copying() == rest[b..];
      PrefixMoves(data, rest, b);
    }

    /** One turn of the copy loop: take a new packet if none is in progress, copy what fits. */
    method CopyPacket() returns (b: nat)
      requires Valid() && headPartial == 0 && head < buffer.Length && (partial > 0 || out != [])
      modifies this`out, this`head, this`pkt, this`partial, buffer
      ensures Valid() && head == old(head) + b && Pending() == old(Pending())
      ensures OnlyFrom(out, old(out)) && (|out| < |old(out)| || (|out| == |old(out)| && b > 0))
    {
      if partial == 0 {
        TakePacket();
      }
      b := CopyPart();
    }

    /** `array2buffer`: copy packets until the buffer is full or nothing is left to copy. */
    method Array2Buffer() returns (ret: nat)
      requires Valid()
      modifies this`out, this`head, this`pkt, this`partial, buffer
      ensures Valid() && head >= old(head) && Pending() == old(Pending()) && OnlyFrom(out, old(out))
      ensures headPartial != 0 ==> out == old(out) && head == old(head) && pkt == old(pkt)
      ensures ret > 0 ==> head > old(head)
      ensures headPartial == 0 ==> head == QUEUE_SIZE || (out == [] && pkt.None?)
    {
      ret := 0;
      if headPartial != 0 {
        return;
      }
      var more := true;
      while more && head < buffer.Length
        invariant Valid() && head >= old(head) && Pending() == old(Pending()) && OnlyFrom(out, old(out))
        invariant ret > 0 ==> head > old(head)
        invariant !more ==> out == [] && pkt.None?
        decreases more, |out|, buffer.Length - head
      {
        if partial == 0 && |out| == 0 {
          more := false;
        } else {
          ret := CopyPacket();
        }
      }
    }

    /** `array2buffer_full`: fills the buffer unless the direct path will take the packets. */
    method Array2BufferFull(enabled: bool, open: bool) returns (rc: nat)
      requires Valid()
      modifies this`out, this`head, this`pkt, this`partial, buffer
      ensures Valid() && head >= old(head) && Pending() == old(Pending()) && OnlyFrom(out, old(out))
      ensures var direct := old(Worthwhile(out, headPartial) && CanWriteDirect(enabled, open));
        if direct || headPartial != 0 then out == old(out) && head == old(head) && pkt == old(pkt)
          && partial == old(partial)
        else head == QUEUE_SIZE || (out == [] && pkt.None?)
    {
      rc := 0;
      var ready := BatchReady();
      if ready && CanWriteDirect(enabled, open) {
        return;
      }
      var r := Array2Buffer();
      while r != 0
        invariant Valid() && head >= old(head) && Pending() == old(Pending()) && OnlyFrom(out, old(out))
        invariant headPartial != 0 ==> out == old(out) && head == old(head) && pkt == old(pkt)
        invariant headPartial == 0 ==> head == QUEUE_SIZE || (out == [] && pkt.None?)
        decreases buffer.Length - head, r
      {
        rc := rc + r;
        r := Array2Buffer();
      }
    }

    /** `queue_r`: the first `b` buffered bytes are gone; an empty buffer starts over. */
    method Discard(b: nat)
      requires tail + b <= head <= buffer.Length
      modifies this`head, this`tail
      ensures tail <= head <= buffer.Length && (tail == head ==> head == 0)
      ensures Buffered() == old(Buffered())[b..]
    {
      tail := tail + b;
      assert buffer[tail..head] == old(Buffered())[b..];
      if tail == head {
        head, tail := 0, 0;
      }
    }

    /** `write_to_net` on a plain socket: one send of all that is buffered. */
    method WriteBuffered(answer: Sent) returns (rc: int)
      requires Valid() && headPartial == 0
      modifies this`head, this`tail, this`netFailure, socket
      ensures Valid()
      ensures rc == Result(old(head - tail), answer, -1)
      ensures Max(rc, 0) <= |old(Pending())|
      ensures socket.wire == old(socket.wire) + old(Pending())[..Max(rc, 0)]
      ensures Pending() == old(Pending())[Max(rc, 0)..]
      ensures netFailure == (old(netFailure) || (answer.Broken? && old(head - tail) > 0))
    {
      if head - tail == 0 {
        return 0;
      }
      ghost var data, rest := Buffered(), Copying() + Unsent();
      FlatOne(data);
      rc := socket.Send([buffer[tail..head]], answer);
      FrontOf(data, Copying(), Unsent(), Max(rc, 0));
      if rc < 0 {
        if answer.Broken? {
          netFailure := true;
        }
      } else {
        Discard(rc);
      }
    }

    /** The snapshot shows which path is taken and what it has to offer. */
    lemma PathOf(enabled: bool, open: bool)
      requires Valid()
      ensures Direct(View(), enabled, open) <==> Worthwhile(out, headPartial) && CanWriteDirect(enabled, open)
      ensures View().buffered == head - tail
    {
    }

    method PollDirect(enabled: bool, open: bool, budget: nat, answer: Sent) returns (rc: int)
      requires Valid() && Direct(View(), enabled, open)
      modifies this`out, this`headPartial, this`netFailure, socket
      ensures Valid() && WriteStep(old(View()), enabled, open, budget, answer, View())
      ensures Max(rc, 0) == Taken(old(View()), enabled, open, budget, answer)
    {
      PathOf(enabled, open);
      rc := WriteDirect(budget, answer);
    }

    method PollBuffered(enabled: bool, open: bool, budget: nat, answer: Sent) returns (rc: int)
      requires Valid() && !Direct(View(), enabled, open)
      modifies this`head, this`tail, this`netFailure, socket
      ensures Valid() && WriteStep(old(View()), enabled, open, budget, answer, View())
      ensures Max(rc, 0) == Taken(old(View()), enabled, open, budget, answer)
    {
      ghost var a := View();
      PathOf(enabled, open);
      if head == tail || netFailure {
        BufferedStep(a, enabled, open, budget, answer, a);
        return 0;
      }
      rc := WriteBuffered(answer);
      BufferedStep(a, enabled, open, budget, answer, View());
    }

    /** `write_to_net_poll`: one turn of the event loop for this stream. */
    method WriteToNetPoll(enabled: bool, open: bool, budget: nat, answer: Sent) returns (rc: int)
      requires Valid()
      modifies this`out, this`headPartial, this`head, this`tail, this`netFailure, socket
      ensures Valid() && WriteStep(old(View()), enabled, open, budget, answer, View())
      ensures Max(rc, 0) == Taken(old(View()), enabled, open, budget, answer)
    {
      PathOf(enabled, open);
      var ready := BatchReady();
      if ready && CanWriteDirect(enabled, open) {
        rc := PollDirect(enabled, open, budget, answer);
      } else {
        rc := PollBuffered(enabled, open, budget, answer);
      }
    }

    method HandlePush(p: Packet)
      requires Valid()
      modifies this`out
      ensures Valid() && StepOk(old(View()), Push(p), View())
    {
      Queue(p);
    }

    method HandleFill(enabled: bool, open: bool)
      requires Valid()
      modifies this`out, this`head, this`pkt, this`partial, buffer
      ensures Valid() && StepOk(old(View()), Fill(enabled, open), View())
    {
      ghost var a := View();
      PathOf(enabled, open);
      var _ := Array2BufferFull(enabled, open);
      PathOf(enabled, open);
      FilledStep(a, enabled, open, View());
    }

    method Handle(e: Event)
      requires Valid()
      modifies this, buffer, socket
      ensures Valid() && StepOk(old(View()), e, View())
    {
      match e
      case Push(p) => HandlePush(p);
      case Fill(enabled, open) => HandleFill(enabled, open);
      case Write(enabled, open, budget, answer) =>
        var _ := WriteToNetPoll(enabled, open, budget, answer);
    }

    /**
     * Any sequence of queueing, buffering and writing, with any budgets, settings and
     * kernel answers. The trace has one snapshot before each event and one at the end,
     * and each event does to the stream exactly what `StepOk` says.
     */
    method Serve(events: seq<Event>) returns (ghost trace: seq<Snap>)
      requires Valid()
      modifies this, buffer, socket
      ensures Valid() && TraceOf(trace, events) && trace[0] == old(View()) && trace[|events|] == View()
      ensures socket.wire + Pending() == old(socket.wire + Pending()) + Flat(Queued(events))
      ensures old(socket.wire) <= socket.wire
    {
      var i := 0;
      ViewIsOk();
      trace := [View()];
      while i < |events|
        invariant 0 <= i <= |events| && Valid() && |trace| == i + 1
        invariant trace[0] == old(View()) && trace[i] == View() && TraceOf(trace, events[..i])
      {
        Handle(events[i]);
        ViewIsOk();
        TraceGrows(trace, events, i, View());
        trace := trace + [View()];
        i := i + 1;
      }
      assert events[..i] == events;
      StreamKept(trace, events);
    }
  }

  // ----- what one event does

  /** The stream as seen between two events. */
  datatype Snap = Snap(
    wire: seq<byte>, pending: seq<byte>, out: seq<Packet>, headPartial: nat, buffered: nat, copying: nat,
    full: bool, failed: bool)

  ghost predicate SnapOk(a: Snap) {
    && (a.headPartial > 0 ==> a.out != [] && a.headPartial < |a.out[0]| && a.buffered == 0 && a.copying == 0)
    && (a.full ==> a.buffered > 0)
    && a.headPartial <= |Flat(a.out)| && |a.pending| == a.buffered + a.copying + |Flat(a.out)| - a.headPartial
  }

  /** What can happen to a stream between two points in time. */
  datatype Event =
    | Push(p: Packet)
    | Fill(enabled: bool, open: bool)
    | Write(enabled: bool, open: bool, budget: nat, answer: Sent)

  /** The return code of a write that offered `offered` bytes. */
  function Result(offered: nat, answer: Sent, broken: int): int {
    if offered == 0 then 0
    else match answer
      case Accepted(n) => Min(n, offered)
      case WouldBlock => -1
      case Broken => broken
  }

  /** The direct path is both worthwhile and safe. */
  predicate Direct(a: Snap, enabled: bool, open: bool) {
    && Worthwhile(a.out, a.headPartial) && (enabled || a.headPartial != 0) && open && !a.failed
    && a.out != [] && a.buffered == 0 && a.copying == 0
  }

  /** How many bytes a write offers the kernel, on whichever path. */
  ghost function Offers(a: Snap, enabled: bool, open: bool, budget: nat): nat {
    if Direct(a, enabled, open) then Offered(a.out, a.headPartial, budget)
    else if a.failed then 0 else a.buffered
  }

  /** How many of them it takes. */
  ghost function Taken(a: Snap, enabled: bool, open: bool, budget: nat, answer: Sent): nat {
    if answer.Accepted? then Min(answer.n, Offers(a, enabled, open, budget)) else 0
  }

  /** A write moves exactly the bytes the kernel took from what is pending to the wire. */
  ghost predicate WriteStep(a: Snap, enabled: bool, open: bool, budget: nat, answer: Sent, b: Snap) {
    var k := Taken(a, enabled, open, budget, answer);
    && k <= |a.pending| && b.wire == a.wire + a.pending[..k] && b.pending == a.pending[k..] && OnlyFrom(b.out, a.out)
    && b.failed == (a.failed || (answer.Broken? && Offers(a, enabled, open, budget) > 0))
  }

  /** Filling leaves a full buffer or nothing to copy, unless the direct path has or will have the packets. */
  ghost predicate FillStep(a: Snap, enabled: bool, open: bool, b: Snap) {
    if Direct(a, enabled, open) || a.headPartial != 0 then b == a
    else
      && b.wire == a.wire && b.pending == a.pending && b.headPartial == 0 && b.failed == a.failed
      && OnlyFrom(b.out, a.out)
      && (b.full || (b.out == [] && b.copying == 0))
  }

  ghost predicate StepOk(a: Snap, e: Event, b: Snap) {
    match e
    case Push(p) => b == a.(out := a.out + [p], pending := a.pending + p)
    case Fill(enabled, open) => FillStep(a, enabled, open, b)
    case Write(enabled, open, budget, answer) => WriteStep(a, enabled, open, budget, answer, b)
  }

  ghost predicate TraceOf(trace: seq<Snap>, events: seq<Event>) {
    && |trace| == |events| + 1
    && (forall i :: 0 <= i < |trace| ==> SnapOk(trace[i]))
    && (forall i {:trigger events[i]} :: 0 <= i < |events| ==> StepOk(trace[i], events[i], trace[i + 1]))
  }

  lemma FilledStep(a: Snap, enabled: bool, open: bool, b: Snap)
    requires b.wire == a.wire && b.pending == a.pending && b.headPartial == a.headPartial && b.failed == a.failed
    requires OnlyFrom(b.out, a.out)
    requires Direct(a, enabled, open) || a.headPartial != 0 ==>
      b.out == a.out && b.buffered == a.buffered && b.copying == a.copying && b.full == a.full
    requires !Direct(a, enabled, open) && a.headPartial == 0 ==> b.full || (b.out == [] && b.copying == 0)
    ensures FillStep(a, enabled, open, b)
  {
  }

  lemma NothingMoves(wire: seq<byte>, pending: seq<byte>)
    ensures wire + pending[..0] == wire && pending[0..] == pending
  {
  }

  /** A write on the buffered path, in terms of the snapshots around it. */
  lemma BufferedStep(a: Snap, enabled: bool, open: bool, budget: nat, answer: Sent, b: Snap)
    requires !Direct(a, enabled, open) && a.buffered <= |a.pending| && b.out == a.out
    requires a.failed || a.buffered == 0 ==> b.wire == a.wire && b.pending == a.pending && b.failed == a.failed
    requires !a.failed && a.buffered > 0 ==>
      var k := if answer.Accepted? then Min(answer.n, a.buffered) else 0;
      b.wire == a.wire + a.pending[..k] && b.pending == a.pending[k..] && b.failed == answer.Broken?
    ensures WriteStep(a, enabled, open, budget, answer, b)
  {
    NothingMoves(a.wire, a.pending);
    var k := Taken(a, enabled, open, budget, answer);
    assert k == if answer.Accepted? && !a.failed then Min(answer.n, a.buffered) else 0;
    assert b.wire == a.wire + a.pending[..k] && b.pending == a.pending[k..];
  }

  lemma TraceGrows(trace: seq<Snap>, events: seq<Event>, i: nat, next: Snap)
    requires i < |events| && TraceOf(trace, events[..i]) && SnapOk(next) && StepOk(trace[i], events[i], next)
    ensures TraceOf(trace + [next], events[..i + 1])
  {
    var longer, es := trace + [next], events[..i + 1];
    forall j | 0 <= j < |es| ensures StepOk(longer[j], es[j], longer[j + 1]) {
      if j < i {
        assert es[j] == events[..i][j] && StepOk(trace[j], events[..i][j], trace[j + 1]);
      }
    }
  }

  // ----- whole runs

  function PushedBy(e: Event): seq<byte> {
    if e.Push? then e.p else []
  }

  function Queued(events: seq<Event>): seq<Packet> {
    if events == [] then []
    else
      var last := events[|events| - 1];
      if last.Push? then Queued(events[..|events| - 1]) + [last.p] else Queued(events[..|events| - 1])
  }

  lemma FlatQueued(events: seq<Event>)
    requires events != []
    ensures Flat(Queued(events)) == Flat(Queued(events[..|events| - 1])) + PushedBy(events[|events| - 1])
  {
    FlatPush(Queued(events[..|events| - 1]), PushedBy(events[|events| - 1]));
    assert Flat(Queued(events[..|events| - 1])) + [] == Flat(Queued(events[..|events| - 1]));
  }

  /** One event loses, duplicates and reorders nothing. */
  lemma StepKeepsStream(a: Snap, e: Event, b: Snap)
    requires StepOk(a, e, b)
    ensures b.wire + b.pending == (a.wire + a.pending) + PushedBy(e) && a.wire <= b.wire
  {
    match e
    case Push(p) =>
      assert a.wire + (a.pending + p) == (a.wire + a.pending) + p;
    case Fill(_, _) =>
      assert (a.wire + a.pending) + [] == a.wire + a.pending;
    case Write(enabled, open, budget, answer) =>
      PrefixMoves(a.wire, a.pending, Taken(a, enabled, open, budget, answer));
      assert (a.wire + a.pending) + [] == a.wire + a.pending;
  }

  lemma TraceFront(trace: seq<Snap>, events: seq<Event>)
    requires TraceOf(trace, events) && events != []
    ensures TraceOf(trace[..|events|], events[..|events| - 1])
  {
  }

  /** The wire followed by what is pending is everything queued, in order. */
  lemma {:induction false} StreamKept(trace: seq<Snap>, events: seq<Event>)
    requires TraceOf(trace, events)
    ensures var a, b := trace[0], trace[|events|];
      b.wire + b.pending == (a.wire + a.pending) + Flat(Queued(events)) && a.wire <= b.wire
    decreases |events|
  {
    var a := trace[0];
    if events == [] {
      assert (a.wire + a.pending) + [] == a.wire + a.pending;
    } else {
      var n := |events| - 1;
      TraceFront(trace, events);
      StreamKept(trace[..n + 1], events[..n]);
      StepKeepsStream(trace[n], events[n], trace[n + 1]);
      FlatQueued(events);
      Reassociate(a.wire + a.pending, Flat(Queued(events[..n])), PushedBy(events[n]));
    }
  }

  // ----- progress

  /** What decides whether a fill and a willing kernel get any byte out. */
  ghost predicate CanMove(a: Snap, enabled: bool, open: bool, budget: nat) {
    && !a.failed
    && if Direct(a, enabled, open) then !Blocked(a.out, a.headPartial, budget)
       else a.headPartial == 0 && a.pending != []
  }

  /**
   * A fill followed by a write that the kernel accepts sends at least one byte exactly
   * when the socket has not failed and: on the direct path no empty packet stands in the
   * way; on the buffered path something is pending and no packet is half-way through a
   * direct write.
   */
  lemma ProgressExact(a: Snap, b: Snap, c: Snap, enabled: bool, open: bool, budget: nat, n: nat)
    requires SnapOk(a) && SnapOk(b) && n > 0
    requires StepOk(a, Fill(enabled, open), b) && StepOk(b, Write(enabled, open, budget, Accepted(n)), c)
    ensures |c.wire| > |a.wire| <==> CanMove(a, enabled, open, budget)
    ensures |c.pending| == |a.pending| - (|c.wire| - |a.wire|)
  {
    OfferedExact(b.out, b.headPartial, budget);
    assert Flat([]) == [];
  }

  ghost predicate NoEmpty(out: seq<Packet>) {
    forall p :: p in out ==> |p| > 0
  }

  /**
   * On an open stream with nothing buffered, two packets, one too large for the buffer, or
   * the rest of a cut one go directly: a write offers what the first 64 packets still have
   * to send, up to the budget, or up to 32768 bytes without one.
   */
  lemma BatchGoesDirect(a: Snap, enabled: bool, budget: nat)
    requires SnapOk(a) && !a.failed && a.buffered == 0 && a.copying == 0 && NoEmpty(a.out)
    requires a.headPartial > 0 || (enabled && (|a.out| >= 2 || (|a.out| == 1 && |a.out[0]| > 32768)))
    ensures Direct(a, enabled, true)
    ensures Offers(a, enabled, true, budget)
      == Min(if budget == 0 then 32768 else budget, |Flat(a.out[..Min(64, |a.out|)])| - a.headPartial)
  {
    var k := Min(64, |a.out|);
    assert !Blocked(a.out, a.headPartial, budget);
    SizeIsFlat(a.out, k);
    AheadStep(a.out, a.headPartial, k - 1);
    SizeGrows(a.out, 1, k);
  }

  /** A fill and a write of which the kernel takes something, on an open socket. */
  datatype Round = Round(enabled: bool, budget: nat, n: nat)

  function EventsOf(rounds: seq<Round>): (es: seq<Event>)
    ensures |es| == 2 * |rounds|
  {
    if rounds == [] then []
    else
      var r := rounds[|rounds| - 1];
      EventsOf(rounds[..|rounds| - 1]) + [Fill(r.enabled, true), Write(r.enabled, true, r.budget, Accepted(r.n))]
  }

  /** Without empty packets every round sends something while anything is left. */
  lemma RoundMoves(a: Snap, b: Snap, c: Snap, enabled: bool, budget: nat, n: nat)
    requires SnapOk(a) && SnapOk(b) && n > 0 && !a.failed && NoEmpty(a.out)
    requires StepOk(a, Fill(enabled, true), b) && StepOk(b, Write(enabled, true, budget, Accepted(n)), c)
    ensures !c.failed && NoEmpty(c.out) && |c.pending| <= |a.pending| && (a.pending != [] ==> |c.pending| < |a.pending|)
  {
    ProgressExact(a, b, c, enabled, true, budget, n);
    assert !Blocked(a.out, a.headPartial, budget);
  }

  lemma {:induction false} EventAt(rounds: seq<Round>, k: nat)
    requires k < |rounds|
    ensures var es, r := EventsOf(rounds), rounds[k];
      es[2 * k] == Fill(r.enabled, true) && es[2 * k + 1] == Write(r.enabled, true, r.budget, Accepted(r.n))
  {
    if k < |rounds| - 1 {
      EventAt(rounds[..|rounds| - 1], k);
    }
  }

  lemma {:induction false} RoundAt(trace: seq<Snap>, rounds: seq<Round>, k: nat)
    requires TraceOf(trace, EventsOf(rounds)) && k < |rounds|
    ensures var a, b, c, r := trace[2 * k], trace[2 * k + 1], trace[2 * k + 2], rounds[k];
      && SnapOk(a) && SnapOk(b) && StepOk(a, Fill(r.enabled, true), b)
      && StepOk(b, Write(r.enabled, true, r.budget, Accepted(r.n)), c)
  {
    EventAt(rounds, k);
    assert StepOk(trace[2 * k], EventsOf(rounds)[2 * k], trace[2 * k + 1]);
    assert StepOk(trace[2 * k + 1], EventsOf(rounds)[2 * k + 1], trace[2 * k + 2]);
  }

  lemma {:induction false} RoundsShrink(trace: seq<Snap>, rounds: seq<Round>, k: nat)
    requires TraceOf(trace, EventsOf(rounds)) && !trace[0].failed && NoEmpty(trace[0].out)
    requires k <= |rounds| && forall i :: 0 <= i < |rounds| ==> rounds[i].n > 0
    ensures var b := trace[2 * k]; !b.failed && NoEmpty(b.out) && |b.pending| <= Max(0, |trace[0].pending| - k)
  {
    if k > 0 {
      var r := rounds[k - 1];
      var a, b, c := trace[2 * k - 2], trace[2 * k - 1], trace[2 * k];
      RoundAt(trace, rounds, k - 1);
      RoundsShrink(trace, rounds, k - 1);
      RoundMoves(a, b, c, r.enabled, r.budget, r.n);
    }
  }

  /** After as many rounds as there are bytes, all of them are on the wire, in order. */
  lemma {:induction false} RoundsDrain(trace: seq<Snap>, rounds: seq<Round>)
    requires TraceOf(trace, EventsOf(rounds)) && !trace[0].failed && NoEmpty(trace[0].out)
    requires (forall i :: 0 <= i < |rounds| ==> rounds[i].n > 0) && |rounds| >= |trace[0].pending|
    ensures trace[2 * |rounds|].wire == trace[0].wire + trace[0].pending
  {
    RoundsShrink(trace, rounds, |rounds|);
    StreamKept(trace, EventsOf(rounds));
    RoundsQueueNothing(rounds);
    var a, b := trace[0], trace[2 * |rounds|];
    assert b.pending == [] && b.wire + [] == b.wire && Flat([]) == []
      && (a.wire + a.pending) + [] == a.wire + a.pending;
  }

  lemma {:induction false} RoundsQueueNothing(rounds: seq<Round>)
    ensures Queued(EventsOf(rounds)) == []
  {
    if rounds != [] {
      var k := |rounds| - 1;
      var r := rounds[k];
      RoundsQueueNothing(rounds[..k]);
      var es := EventsOf(rounds[..k]);
      var f, w := Fill(r.enabled, true), Write(r.enabled, true, r.budget, Accepted(r.n));
      assert (es + [f, w])[..2 * k + 1] == es + [f] && (es + [f])[..2 * k] == es;
    }
  }

  // ----- byte strings

  lemma Reassociate(x: seq<byte>, y: seq<byte>, z: seq<byte>)
    ensures (x + y) + z == x + (y + z)
  {
  }

  lemma PrefixOfPrefix(v: seq<byte>, u: seq<byte>, n: nat)
    requires n <= |v| <= |u| && v == u[..|v|]
    ensures v[..n] == u[..n]
  {
  }

  /** The front of a stream whose first part is `data`. */
  lemma FrontOf(data: seq<byte>, c: seq<byte>, u: seq<byte>, n: nat)
    requires n <= |data|
    ensures (data + c + u)[..n] == data[..n] && (data + c + u)[n..] == data[n..] + c + u
  {
  }

  /** Moving a prefix from one side of the boundary to the other loses nothing. */
  lemma PrefixMoves(done: seq<byte>, todo: seq<byte>, n: nat)
    requires n <= |todo|
    ensures (done + todo[..n]) + todo[n..] == done + todo
  {
    assert todo == todo[..n] + todo[n..];
  }

  lemma TakeMoves(data: seq<byte>, out: seq<Packet>)
    requires out != []
    ensures data + [] + Flat(out)[0..] == data + out[0] + Flat(out[1..])
  {
    assert data + [] + Flat(out)[0..] == data + (out[0] + Flat(out[1..]));
  }

  lemma PushMoves(front: seq<byte>, flat: seq<byte>, partial: nat, p: Packet)
    requires partial <= |flat|
    ensures front + (flat + p)[partial..] == (front + flat[partial..]) + p
  {
    assert (flat + p)[partial..] == flat[partial..] + p;
  }

  /** One more slice extends the view by the next unsent bytes. */
  lemma SliceExtends(out: seq<Packet>, partial: nat, i: nat, total: nat, len: nat)
    requires i < |out| && (partial == 0 || partial < |out[0]|) && total == Ahead(out, partial, i)
    requires len <= |out[i]| - (if i == 0 then partial else 0)
    ensures var offset := if i == 0 then partial else 0;
      && partial + total + len <= |Flat(out)|
      && Flat(out)[partial..][..total + len] == Flat(out)[partial..][..total] + out[i][offset..offset + len]
  {
    var offset := if i == 0 then partial else 0;
    AheadStep(out, partial, i);
    PacketAt(out, i, offset, len);
    assert partial + total == Size(out, i) + offset;
    TakeMore(Flat(out), partial, total, len);
  }

  /** Where packet `i` stands in the bytes of the list. */
  lemma PacketAt(out: seq<Packet>, i: nat, offset: nat, len: nat)
    requires i < |out| && offset + len <= |out[i]|
    ensures var at := Size(out, i) + offset;
      at + len <= |Flat(out)| && Flat(out)[at..at + len] == out[i][offset..offset + len]
  {
    FlatSplit(out, i);
    Inside(Flat(out[..i]), out[i], Flat(out[i..][1..]), offset, len);
  }

  lemma Inside(a: seq<byte>, p: Packet, r: seq<byte>, offset: nat, len: nat)
    requires offset + len <= |p|
    ensures (a + (p + r))[|a| + offset..|a| + offset + len] == p[offset..offset + len]
  {
  }

  lemma TakeMore(s: seq<byte>, from: nat, n: nat, len: nat)
    requires from + n + len <= |s|
    ensures s[from..][..n + len] == s[from..][..n] + s[from + n..from + n + len]
  {
  }

  lemma DropTwice(s: seq<byte>, a: nat, b: nat)
    requires a + b <= |s|
    ensures s[a..][b..] == s[a + b..]
  {
  }
}
