/** What the sending loop puts into a datagram, as the bytes that travel, and what they mean on arrival. */
module Framing {
  import opened Carryless
  import opened Windows
  import opened Fragmentation
  import opened SendQueues
  import opened Commands
  import Receiving
  import Delivery
  import Sender
  import Packing
  import Datagram

  /** Two and four bytes in network order. */
  function Two(n: nat): (b: seq<Byte>)
    ensures |b| == 2 && Datagram.Short(b[0], b[1]) == n % SPAN
  {
    TwoBytes(n);
    [n / 256 % 256, n % 256]
  }

  lemma {:induction false} TwoBytes(n: nat)
    ensures 256 * (n / 256 % 256) + n % 256 == n % SPAN
  {
    var q := n / SPAN;
    var r := n % SPAN;
    assert n == q * SPAN + r && r < SPAN;
    Quotients(q, r);
  }

  lemma {:induction false} Quotients(q: nat, r: nat)
    requires r < SPAN
    ensures (q * SPAN + r) / 256 == q * 256 + r / 256 && (q * SPAN + r) % 256 == r % 256
    ensures (q * 256 + r / 256) % 256 == r / 256
  {
  }

  function Four(n: nat): (b: seq<Byte>)
    ensures |b| == 4
  {
    Two(n / SPAN) + Two(n)
  }

  function ReadFour(b: seq<Byte>): nat
    requires |b| == 4
  {
    Datagram.Short(b[0], b[1]) * SPAN + Datagram.Short(b[2], b[3])
  }

  lemma {:induction false} FourReads(n: nat)
    requires n < SPAN * SPAN
    ensures ReadFour(Four(n)) == n
  {
    hide Two, Datagram.Short;
    var b := Four(n);
    assert b[0] == Two(n / SPAN)[0] && b[1] == Two(n / SPAN)[1] && b[2] == Two(n)[0] && b[3] == Two(n)[1];
    HighHalf(n);
  }

  lemma {:induction false} HighHalf(n: nat)
    requires n < SPAN * SPAN
    ensures n / SPAN % SPAN * SPAN + n % SPAN == n
  {
    assert n / SPAN < SPAN;
  }

  /** The fields behind the header of a command. */
  function BodyOf(c: Outgoing): seq<Byte> {
    match c.kind
    case Control(_, body) => body
    case SendReliable => Two(c.length)
    case SendUnreliable => Two(c.unreliable) + Two(c.length)
    case SendUnsequenced(group) => Two(group) + Two(c.length)
    case SendFragment(start, count, index, total) =>
      Two(start) + Two(c.length) + Four(count) + Four(index) + Four(total) + Four(c.offset)
    case SendUnreliableFragment(start, count, index, total) =>
      Two(start) + Two(c.length) + Four(count) + Four(index) + Four(total) + Four(c.offset)
  }

  /** An entry of a datagram as a command on the wire, with its part of the packet behind it. */
  function FrameOf(e: Packing.Entry, payload: seq<Byte>): Datagram.Command
    requires e.Command? ==> Packing.WellMade(e.command)
  {
    match e
    case Ack(a) => Datagram.Command(1, false, false, a.channel, a.sequence, Two(a.sequence) + Two(a.sentTime), [])
    case Command(c) =>
      Datagram.Command(CommandNumber(c.kind), c.acknowledge, c.kind.SendUnsequenced?, c.channel, Wire(c.number), BodyOf(c), payload)
  }

  function PayloadLength(e: Packing.Entry): nat { if e.Command? && e.command.packet then e.command.length else 0 }

  predicate PayloadsFit(entries: seq<Packing.Entry>, payloads: seq<seq<Byte>>) {
    |payloads| == |entries| && forall i :: 0 <= i < |entries| ==> |payloads[i]| == PayloadLength(entries[i])
  }

  lemma {:induction false} BodyIsRead(c: Outgoing)
    requires Packing.WellMade(c)
    ensures var number := CommandNumber(c.kind);
            && Datagram.Size(number) == 4 + |BodyOf(c)|
            && Datagram.PayloadLength(number, BodyOf(c)) == if c.packet then c.length else 0
  {
    hide Two, Four;
    match c.kind
    case Control(_, _) =>
    case SendReliable =>
    case SendUnreliable =>
    case SendUnsequenced(_) =>
    case SendFragment(_, _, _, _) =>
    case SendUnreliableFragment(_, _, _, _) =>
  }

  lemma {:induction false} AckIsWellFormed(e: Packing.Entry, payload: seq<Byte>)
    requires e.Ack?
    ensures Datagram.WellFormed(FrameOf(e, payload)) && |Datagram.Encode(FrameOf(e, payload))| == Packing.EntrySize(e)
  {
    hide Two;
  }

  lemma {:induction false} FrameIsWellFormed(e: Packing.Entry, payload: seq<Byte>)
    requires (e.Command? ==> Packing.WellMade(e.command)) && |payload| == PayloadLength(e)
    ensures Datagram.WellFormed(FrameOf(e, payload))
    ensures |Datagram.Encode(FrameOf(e, payload))| == Packing.EntrySize(e)
  {
    hide Two, Four, BodyOf, CommandNumber, Datagram.PayloadLength, Datagram.Carries, Packing.WellMade;
    if e.Command? { BodyIsRead(e.command); } else { AckIsWellFormed(e, payload); }
  }

  function FramesOf(entries: seq<Packing.Entry>, payloads: seq<seq<Byte>>): (ds: seq<Datagram.Command>)
    requires |payloads| == |entries| && Packing.AllFramable(entries)
    ensures |ds| == |entries| && forall i :: 0 <= i < |ds| ==> ds[i] == FrameOf(entries[i], payloads[i])
  {
    if entries == [] then []
    else
      var n := |entries| - 1;
      FramesOf(entries[..n], payloads[..n]) + [FrameOf(entries[n], payloads[n])]
  }

  lemma {:induction false} FramesSize(entries: seq<Packing.Entry>, payloads: seq<seq<Byte>>)
    requires Packing.AllFramable(entries) && PayloadsFit(entries, payloads)
    ensures forall d :: d in FramesOf(entries, payloads) ==> Datagram.WellFormed(d)
    ensures |Datagram.EncodeAll(FramesOf(entries, payloads))| == Packing.TotalSize(entries)
  {
    hide Packing.EntrySize, Datagram.Encode, Datagram.WellFormed, FrameOf, PayloadLength, Packing.WellMade;
    if entries != [] {
      var n := |entries| - 1;
      var ds := FramesOf(entries[..n], payloads[..n]);
      FramesSize(entries[..n], payloads[..n]);
      assert entries[n] in entries;
      FrameIsWellFormed(entries[n], payloads[n]);
      EncodedJoin(ds, FrameOf(entries[n], payloads[n]));
    }
  }

  lemma {:induction false} EncodedJoin(ds: seq<Datagram.Command>, d: Datagram.Command)
    requires (forall c :: c in ds ==> Datagram.WellFormed(c)) && Datagram.WellFormed(d)
    ensures Datagram.EncodeAll(ds + [d]) == Datagram.EncodeAll(ds) + Datagram.Encode(d)
  {
    hide Datagram.Encode, Datagram.WellFormed;
    if ds == [] {
      assert [d][1..] == [];
    } else {
      EncodedJoin(ds[1..], d);
      assert (ds + [d])[1..] == ds[1..] + [d];
    }
  }

  predicate AsksForAcknowledgement(e: Packing.Entry) { e.Command? && e.command.acknowledge }

  lemma {:induction false} TimeNamed(entries: seq<Packing.Entry>, payloads: seq<seq<Byte>>)
    requires Packing.AllFramable(entries) && |payloads| == |entries|
    ensures Datagram.SentTime(FramesOf(entries, payloads)) <==> exists e :: e in entries && AsksForAcknowledgement(e)
  {
    hide Packing.WellMade;
    var ds := FramesOf(entries, payloads);
    assert forall i :: 0 <= i < |entries| ==> (ds[i].acknowledge <==> AsksForAcknowledgement(entries[i])) && entries[i] in entries;
    if Datagram.SentTime(ds) {
      var d :| d in ds && d.acknowledge;
      var i :| 0 <= i < |ds| && ds[i] == d;
      assert AsksForAcknowledgement(entries[i]);
    }
    if e :| e in entries && AsksForAcknowledgement(e) {
      var i :| 0 <= i < |entries| && entries[i] == e;
      assert ds[i] in ds;
    }
  }

  /** Whatever the sending loop packs has bytes: they fit the mtu, the header names a time exactly when an entry asks for an
      acknowledgement, and the receiver takes the same commands apart again, up to the first one refused. */
  lemma {:induction false} DatagramTravels(entries: seq<Packing.Entry>, payloads: seq<seq<Byte>>, mtu: nat, peerID: bv16,
                                           session: bv16, time: nat, known: bool, handlers: Datagram.Handlers)
    returns (n: nat)
    requires Packing.Within(entries, mtu) && PayloadsFit(entries, payloads)
    requires peerID <= Datagram.MAXIMUM_PEER_ID && session < 4 && time < 0x10000
    ensures forall d :: d in FramesOf(entries, payloads) ==> Datagram.WellFormed(d)
    ensures var ds := FramesOf(entries, payloads); var g := Datagram.Datagram(peerID, session, time, ds);
            var bytes := Datagram.Pack(g);
            && 2 <= |bytes| <= mtu && |ds| <= Packing.MAXIMUM_PACKET_COMMANDS
            && var h := Datagram.ReadHeading(bytes);
               && h.peerID == peerID && !h.compressed && h.size <= |bytes|
               && (h.sentTime <==> exists e :: e in entries && AsksForAcknowledgement(e))
               && n <= |ds| && Datagram.Parse(bytes[h.size..], h.sentTime, known, handlers, []) == ds[..n]
               && (n < |ds| ==> !Datagram.Accepted(known, handlers, ds[..n], ds[n]))
    ensures var ds := FramesOf(entries, payloads);
            forall i | 0 <= i < n && n <= |ds| :: Datagram.Accepted(known, handlers, ds[..i], ds[i])
  {
    hide Packing.TotalSize, Datagram.EncodeAll, Datagram.HeaderWord, Datagram.WellFormed, FramesOf, Datagram.Parse, Datagram.Accepted,
         Datagram.ReadHeading, AsksForAcknowledgement, Datagram.SentTime;
    FramesSize(entries, payloads);
    TimeNamed(entries, payloads);
    var g := Datagram.Datagram(peerID, session, time, FramesOf(entries, payloads));
    n := Datagram.UnpackInvertsPack(g, known, handlers);
  }

  // What a command means on arrival.

  /** The message a reliable handler sees: the fields of the structure and the payload. */
  function MessageOf(d: Datagram.Command): (m: Receiving.Message)
    requires Datagram.WellFormed(d) && (d.number == 6 || d.number == 8)
  {
    if d.number == 6 then Receiving.Whole(d.sequence, d.payload)
    else
      var b := d.body;
      Receiving.Piece(d.sequence, Datagram.Short(b[0], b[1]), ReadFour(b[4..8]), ReadFour(b[8..12]), ReadFour(b[16..20]),
                      ReadFour(b[12..16]), d.payload)
  }

  /** The bytes of a reliable command say what the protocol of its channel delivers: the part of the packet that its number
      stands for, with numbers cut to 16 bits. */
  lemma {:induction false} PartTravels(packets: seq<Delivery.Packet>, c: Outgoing, j: nat, i: nat, payload: seq<Byte>)
    requires Sender.IsPartOf(packets, c, j, i) && Packing.WellMade(c) && |packets[j].data| < SPAN * SPAN
    requires c.offset + c.length <= |packets[j].data| && payload == packets[j].data[c.offset..c.offset + c.length]
    ensures |payload| == PayloadLength(Packing.Command(c)) && Datagram.WellFormed(FrameOf(Packing.Command(c), payload))
    ensures var d := FrameOf(Packing.Command(c), payload);
            && (d.number == 6 || d.number == 8)
            && MessageOf(d) == Delivery.OnWire(Delivery.Command(packets, j, i))
  {
    hide Delivery.First, Delivery.Pieces, FrameOf, MessageOf, Datagram.WellFormed;
    FrameIsWellFormed(Packing.Command(c), payload);
    if Delivery.Pieces(packets[j]) == 1 {
      WholeTravels(c, packets[j].data, payload);
    } else {
      PartIsShort(packets[j], i);
      FragmentTravels(c, payload);
    }
  }

  lemma {:induction false} WholeTravels(c: Outgoing, data: seq<Byte>, payload: seq<Byte>)
    requires Packing.WellMade(c) && c.kind == Kind.SendReliable && c.length == |data| && |payload| == PayloadLength(Packing.Command(c))
    requires payload == data[0..c.length]
    ensures var d := FrameOf(Packing.Command(c), payload);
            d.number == 6 && Datagram.WellFormed(d) && MessageOf(d) == Receiving.Whole(Wire(c.number), data)
  {
    FrameIsWellFormed(Packing.Command(c), payload);
  }

  lemma {:induction false} FragmentTravels(c: Outgoing, payload: seq<Byte>)
    requires Packing.WellMade(c) && c.kind.SendFragment? && |payload| == PayloadLength(Packing.Command(c))
    requires c.kind.count < SPAN * SPAN && c.kind.index < SPAN * SPAN && c.kind.total < SPAN * SPAN && c.offset < SPAN * SPAN
    ensures var d, k := FrameOf(Packing.Command(c), payload), c.kind;
            d.number == 8 && Datagram.WellFormed(d)
            && MessageOf(d) == Receiving.Piece(Wire(c.number), k.start, k.count, k.index, c.offset, k.total, payload)
  {
    hide Two, Four, ReadFour, Datagram.Short;
    var d, k := FrameOf(Packing.Command(c), payload), c.kind;
    FrameIsWellFormed(Packing.Command(c), payload);
    FourReads(k.count);
    FourReads(k.index);
    FourReads(k.total);
    FourReads(c.offset);
    assert d.body[0..2] == Two(k.start);
    assert d.body[4..8] == Four(k.count) && d.body[8..12] == Four(k.index);
    assert d.body[12..16] == Four(k.total) && d.body[16..20] == Four(c.offset);
  }

  lemma {:induction false} PartIsShort(p: Delivery.Packet, i: nat)
    requires Delivery.Pieces(p) > 1 && i < Delivery.Pieces(p) && 0 < p.piece && i * p.piece < |p.data|
    ensures Delivery.Pieces(p) <= |p.data| && PieceAt(|p.data|, p.piece, i).offset < |p.data|
  {
    assert Delivery.Pieces(p) == Delivery.PiecesCut(p);
    hide Delivery.Pieces, PieceCount;
    CountBounds(|p.data|, p.piece, Delivery.Pieces(p) - 1);
    AtLeast(Delivery.Pieces(p) - 1, p.piece);
  }

  lemma {:induction false} AtLeast(n: nat, piece: nat)
    requires 0 < piece
    ensures n <= n * piece
  {
  }

  // Where the bytes are.

  function Joined(high: nat, low: nat): nat { high * 256 + low }

  /** A field of two bytes, and one of four, in network order. */
  predicate Field16(bytes: seq<Byte>, at: nat, n: nat) {
    at + 2 <= |bytes| && n % 0x1_0000 == Joined(bytes[at], bytes[at + 1])
  }

  predicate Field32(bytes: seq<Byte>, at: nat, n: nat) {
    && at + 4 <= |bytes|
    && n % 0x1_0000_0000 == Joined(Joined(Joined(bytes[at], bytes[at + 1]), bytes[at + 2]), bytes[at + 3])
  }

  /** The bytes that begin every command. */
  predicate Begins(bytes: seq<Byte>, first: nat, channel: nat, number: nat) {
    |bytes| >= 4 && bytes[0] == first && bytes[1] == channel && Field16(bytes, 2, number)
  }

  /** The structures of the protocol, byte by byte. */
  ghost predicate LaidOut(e: Packing.Entry, payload: seq<Byte>, bytes: seq<Byte>) {
    match e
    case Ack(a) =>
      |bytes| == 8 && Begins(bytes, 0x01, a.channel, a.sequence) && Field16(bytes, 4, a.sequence) && Field16(bytes, 6, a.sentTime)
    case Command(c) =>
      match c.kind
      case Control(number, body) =>
        Begins(bytes, number + if c.acknowledge then 0x80 else 0, 0xFF, c.number) && bytes[4..] == body
      case SendReliable => Begins(bytes, 0x86, c.channel, c.number) && Field16(bytes, 4, c.length) && bytes[6..] == payload
      case SendUnreliable =>
        && Begins(bytes, 0x07, c.channel, c.number) && Field16(bytes, 4, c.unreliable) && Field16(bytes, 6, c.length)
        && bytes[8..] == payload
      case SendUnsequenced(group) =>
        && Begins(bytes, 0x49, c.channel, c.number) && Field16(bytes, 4, group) && Field16(bytes, 6, c.length)
        && bytes[8..] == payload
      case SendFragment(start, count, index, total) =>
        Begins(bytes, 0x88, c.channel, c.number) && FragmentFields(bytes, start, c.length, count, index, total, c.offset, payload)
      case SendUnreliableFragment(start, count, index, total) =>
        Begins(bytes, 0x0C, c.channel, c.number) && FragmentFields(bytes, start, c.length, count, index, total, c.offset, payload)
  }

  predicate FragmentFields(bytes: seq<Byte>, start: nat, length: nat, count: nat, index: nat, total: nat, offset: nat,
                           payload: seq<Byte>) {
    && Field16(bytes, 4, start) && Field16(bytes, 6, length) && Field32(bytes, 8, count) && Field32(bytes, 12, index)
    && Field32(bytes, 16, total) && Field32(bytes, 20, offset) && bytes[24..] == payload
  }

  /** Fields behind the four bytes that begin a command. */
  lemma {:induction false} TwoAt(n: nat, head: seq<Byte>, before: seq<Byte>, after: seq<Byte>, payload: seq<Byte>)
    requires |head| == 4
    ensures Field16(head + (before + Two(n) + after) + payload, 4 + |before|, n)
  {
    var bytes := head + (before + Two(n) + after) + payload;
    assert bytes[4 + |before|] == Two(n)[0] && bytes[4 + |before| + 1] == Two(n)[1];
  }

  lemma {:induction false} FourAt(n: nat, head: seq<Byte>, before: seq<Byte>, after: seq<Byte>, payload: seq<Byte>)
    requires |head| == 4
    ensures Field32(head + (before + Four(n) + after) + payload, 4 + |before|, n)
  {
    var bytes, at := head + (before + Four(n) + after) + payload, 4 + |before|;
    assert bytes[at] == Four(n)[0] && bytes[at + 1] == Four(n)[1] && bytes[at + 2] == Four(n)[2] && bytes[at + 3] == Four(n)[3];
    FourJoined(n);
  }

  lemma {:induction false} FourJoined(n: nat)
    ensures var b := Four(n); n % 0x1_0000_0000 == Joined(Joined(Joined(b[0], b[1]), b[2]), b[3])
  {
    var high, low := n / SPAN, n % SPAN;
    assert n % 0x1_0000_0000 == high % SPAN * SPAN + low;
    assert Joined(Two(high)[0], Two(high)[1]) == high % SPAN && Joined(Two(n)[0], Two(n)[1]) == low;
  }

  lemma {:induction false} BeginsRight(d: Datagram.Command, n: nat)
    requires Datagram.WellFormed(d) && d.sequence == Wire(n)
    ensures var head := [Datagram.Tag(d), d.channel, d.sequence / 256, d.sequence % 256];
            && Datagram.Encode(d) == head + d.body + d.payload && |head| == 4
            && Begins(Datagram.Encode(d), d.number + (if d.unsequenced then 0x40 else 0) + (if d.acknowledge then 0x80 else 0),
                      d.channel, n)
  {
  }

  lemma {:induction false} FragmentFieldsAt(head: seq<Byte>, start: nat, length: nat, count: nat, index: nat, total: nat, offset: nat,
                                            payload: seq<Byte>)
    requires |head| == 4
    ensures var body := Two(start) + Two(length) + Four(count) + Four(index) + Four(total) + Four(offset);
            FragmentFields(head + body + payload, start, length, count, index, total, offset, payload)
  {
    hide Two, Four, Field16, Field32;
    var body := Two(start) + Two(length) + Four(count) + Four(index) + Four(total) + Four(offset);
    TwoAt(start, head, [], Two(length) + Four(count) + Four(index) + Four(total) + Four(offset), payload);
    TwoAt(length, head, Two(start), Four(count) + Four(index) + Four(total) + Four(offset), payload);
    FourAt(count, head, Two(start) + Two(length), Four(index) + Four(total) + Four(offset), payload);
    FourAt(index, head, Two(start) + Two(length) + Four(count), Four(total) + Four(offset), payload);
    FourAt(total, head, Two(start) + Two(length) + Four(count) + Four(index), Four(offset), payload);
    FourAt(offset, head, Two(start) + Two(length) + Four(count) + Four(index) + Four(total), [], payload);
    assert body == [] + Two(start) + (Two(length) + Four(count) + Four(index) + Four(total) + Four(offset));
    assert body == Two(start) + Two(length) + (Four(count) + Four(index) + Four(total) + Four(offset));
    assert body == Two(start) + Two(length) + Four(count) + (Four(index) + Four(total) + Four(offset));
    assert body == Two(start) + Two(length) + Four(count) + Four(index) + (Four(total) + Four(offset));
    assert body == Two(start) + Two(length) + Four(count) + Four(index) + Four(total) + Four(offset) + [];
  }

  lemma {:induction false} ShortFieldsAt(head: seq<Byte>, a: nat, b: nat, payload: seq<Byte>)
    requires |head| == 4
    ensures var bytes := head + (Two(a) + Two(b)) + payload;
            Field16(bytes, 4, a) && Field16(bytes, 6, b) && bytes[8..] == payload
    ensures var bytes := head + Two(a) + payload; Field16(bytes, 4, a) && bytes[6..] == payload
  {
    hide Two, Field16;
    TwoAt(a, head, [], Two(b), payload);
    TwoAt(b, head, Two(a), [], payload);
    TwoAt(a, head, [], [], payload);
    assert [] + Two(a) + Two(b) == Two(a) + Two(b) && Two(a) + Two(b) + [] == Two(a) + Two(b) && [] + Two(a) + [] == Two(a);
  }

  /** Every entry is laid out as the protocol says. */
  lemma {:induction false} EntryLaidOut(e: Packing.Entry, payload: seq<Byte>)
    requires (e.Command? ==> Packing.WellMade(e.command)) && |payload| == PayloadLength(e)
    ensures Datagram.WellFormed(FrameOf(e, payload)) && LaidOut(e, payload, Datagram.Encode(FrameOf(e, payload)))
  {
    hide Two, Four, Field16, Field32, Datagram.Encode, Datagram.Tag, Begins, FragmentFields, Datagram.WellFormed;
    FrameIsWellFormed(e, payload);
    var d := FrameOf(e, payload);
    BeginsRight(d, if e.Ack? then e.acknowledgement.sequence else e.command.number);
    var head := [Datagram.Tag(d), d.channel, d.sequence / 256, d.sequence % 256];
    match e
    case Ack(a) =>
      ShortFieldsAt(head, a.sequence, a.sentTime, payload);
    case Command(c) =>
      match c.kind
      case Control(_, _) => assert payload == [] && (head + d.body + payload)[4..] == d.body;
      case SendReliable => ShortFieldsAt(head, c.length, 0, payload);
      case SendUnreliable => ShortFieldsAt(head, c.unreliable, c.length, payload);
      case SendUnsequenced(group) => ShortFieldsAt(head, group, c.length, payload);
      case SendFragment(start, count, index, total) =>
        FragmentFieldsAt(head, start, c.length, count, index, total, c.offset, payload);
      case SendUnreliableFragment(start, count, index, total) =>
        FragmentFieldsAt(head, start, c.length, count, index, total, c.offset, payload);
  }

  /** Two bytes, high one first, as a word. */
  function BigEndian(high: Byte, low: Byte): bv16 { (((high as bv8) as bv16) << 8) | ((low as bv8) as bv16) }

  /** The two bytes of the header word are the peer, the session, and the bit that says that a time follows. */
  lemma {:induction false} HeaderLaidOut(peerID: bv16, session: bv16, stamped: bool)
    requires peerID <= 0xFFF && session < 4
    ensures var w := Datagram.HeaderWord(peerID, session, if stamped then Datagram.FLAG_SENT_TIME else 0);
            BigEndian(Datagram.HighByte(w), Datagram.LowByte(w)) ==
            peerID | (if stamped then 0x8000 else 0) | (if peerID < 0xFFF then session << 12 else 0)
  {
    WordJoins(Datagram.HeaderWord(peerID, session, if stamped then Datagram.FLAG_SENT_TIME else 0));
  }

  lemma {:induction false} WordJoins(w: bv16)
    ensures BigEndian(Datagram.HighByte(w), Datagram.LowByte(w)) == w
  {
    Datagram.OctetReads((w >> 8) as bv8);
    Datagram.OctetReads((w & 0xFF) as bv8);
  }

  /** A datagram as it goes out: the header, the time if an entry asks for an acknowledgement, and the entries one after the
      other, each laid out as the protocol says. */
  lemma {:induction false} DatagramLaidOut(entries: seq<Packing.Entry>, payloads: seq<seq<Byte>>, peerID: bv16, session: bv16,
                                           time: nat, i: nat)
    requires Packing.AllFramable(entries) && PayloadsFit(entries, payloads) && i < |entries|
    requires peerID <= 0xFFF && session < 4 && time < 0x1_0000
    ensures forall d :: d in FramesOf(entries, payloads) ==> Datagram.WellFormed(d)
    ensures var bytes := Datagram.Pack(Datagram.Datagram(peerID, session, time, FramesOf(entries, payloads)));
            var stamped := exists e :: e in entries && AsksForAcknowledgement(e);
            var at := (if stamped then 4 else 2) + Packing.TotalSize(entries[..i]);
            && (stamped ==> Field16(bytes, 2, time))
            && at + Packing.EntrySize(entries[i]) <= |bytes|
            && LaidOut(entries[i], payloads[i], bytes[at..at + Packing.EntrySize(entries[i])])
            && BigEndian(bytes[0], bytes[1]) ==
               peerID | (if stamped then 0x8000 else 0) | (if peerID < 0xFFF then session << 12 else 0)
  {
    hide Datagram.EncodeAll, Datagram.Encode, Datagram.WellFormed, Datagram.HeaderWord, Datagram.HighByte, Datagram.LowByte,
         Datagram.SentTime, LaidOut, FrameOf, AsksForAcknowledgement, Packing.TotalSize, Packing.EntrySize, PayloadLength,
         Packing.WellMade, BigEndian, FramesOf, Joined;
    var ds := FramesOf(entries, payloads);
    FramesSize(entries, payloads);
    TimeNamed(entries, payloads);
    HeaderLaidOut(peerID, session, Datagram.SentTime(ds));
    assert entries[i] in entries;
    EntryLaidOut(entries[i], payloads[i]);
    FrameIsWellFormed(entries[i], payloads[i]);
    FramesBefore(entries, payloads, i);
    EncodedSplits(ds, i);
    TimeBytes(time);
    var bytes, all := Datagram.Pack(Datagram.Datagram(peerID, session, time, ds)), Datagram.EncodeAll(ds);
    var h, before, size := if Datagram.SentTime(ds) then 4 else 2, Packing.TotalSize(entries[..i]), Packing.EntrySize(entries[i]);
    assert bytes[h..] == all;
    assert bytes[h + before..h + before + size] == all[before..before + size];
  }

  lemma {:induction false} TimeBytes(time: nat)
    requires time < 0x1_0000
    ensures time / 256 < 256 && time == Joined(time / 256, time % 256)
  {
  }

  lemma {:induction false} FramesBefore(entries: seq<Packing.Entry>, payloads: seq<seq<Byte>>, i: nat)
    requires Packing.AllFramable(entries) && PayloadsFit(entries, payloads) && i <= |entries|
    ensures var ds := FramesOf(entries, payloads);
            && (forall d :: d in ds[..i] ==> Datagram.WellFormed(d))
            && |Datagram.EncodeAll(ds[..i])| == Packing.TotalSize(entries[..i])
  {
    hide Datagram.EncodeAll, FrameOf, PayloadLength, Datagram.WellFormed, Packing.TotalSize, Packing.WellMade;
    assert FramesOf(entries, payloads)[..i] == FramesOf(entries[..i], payloads[..i]);
    FramesSize(entries[..i], payloads[..i]);
  }

  lemma {:induction false} EncodedSplits(ds: seq<Datagram.Command>, i: nat)
    requires i < |ds| && forall d :: d in ds ==> Datagram.WellFormed(d)
    ensures var before, all := Datagram.EncodeAll(ds[..i]), Datagram.EncodeAll(ds);
            && |before| + |Datagram.Encode(ds[i])| <= |all|
            && all[|before|..|before| + |Datagram.Encode(ds[i])|] == Datagram.Encode(ds[i])
  {
    hide Datagram.Encode, Datagram.WellFormed;
    if i > 0 {
      EncodedSplits(ds[1..], i - 1);
      assert ds[..i][1..] == ds[1..][..i - 1];
    } else {
      assert ds[..0] == [];
    }
  }
}
