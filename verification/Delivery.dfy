/** One reliable channel end to end: a sender, a network that loses, repeats and reorders, and a receiver. */
module Delivery {
  import opened Carryless
  import opened Fragmentation
  import opened Windows
  import opened Receiving

  /** A packet given to the sender, cut every `piece` bytes if it is longer than that. */
  datatype Packet = Packet(data: seq<Byte>, piece: nat)

  /** `sent` is the last number transmitted for the first time, `inFlight` the transmitted numbers whose
      acknowledgement has not been taken, `acks` the acknowledgements ever queued, as (packet, fragment). */
  datatype System = System(packets: seq<Packet>, sent: nat, inFlight: set<nat>,
                           receiver: Receiver, acks: set<(nat, nat)>, limit: nat)

  datatype Event =
    | Queue(added: Packet)
    | Transmit
    | Deliver(packet: nat, fragment: nat, full: bool)
    | Acknowledge(packet: nat, fragment: nat)

  /** No copy of a fragment reaches the receiver when the packet starts more than nine windows behind. */
  const STALE := 9

  function Pieces(p: Packet): (n: nat)
    ensures n > 0
  {
    if |p.data| <= p.piece || p.piece == 0 then 1 else PiecesCut(p)
  }

  function PiecesCut(p: Packet): (n: nat)
    requires |p.data| > p.piece > 0
    ensures n == PieceCount(|p.data|, p.piece) > 1
  {
    CountBounds(|p.data|, p.piece, 1);
    PieceCount(|p.data|, p.piece)
  }

  /** The first sequence number of packet j. */
  function First(packets: seq<Packet>, j: nat): (n: nat)
    requires j <= |packets|
    ensures n > 0
  {
    if j == 0 then 1 else First(packets, j - 1) + Pieces(packets[j - 1])
  }

  predicate Exists(s: System, j: nat, i: nat) { j < |s.packets| && i < Pieces(s.packets[j]) }

  function NumberOf(s: System, j: nat, i: nat): nat
    requires j < |s.packets|
  {
    First(s.packets, j) + i
  }

  /** Fragment i of packet j as a command, or the packet itself if it is not cut. */
  function Command(packets: seq<Packet>, j: nat, i: nat): (m: Message)
    requires j < |packets| && i < Pieces(packets[j])
    ensures m.number == First(packets, j) + i
    ensures m.Whole? <==> Pieces(packets[j]) == 1
    ensures m.Piece? ==> m.start == First(packets, j)
  {
    var p := packets[j];
    if Pieces(p) == 1 then Whole(First(packets, j), p.data)
    else
      CountBounds(|p.data|, p.piece, i);
      var f := PieceAt(|p.data|, p.piece, i);
      Piece(First(packets, j) + i, First(packets, j), Pieces(p), i, f.offset, |p.data|, Bytes(p.data, f))
  }

  /** A command as it travels: numbers cut to 16 bits. */
  function OnWire(m: Message): Message {
    match m
    case Whole(n, data) => Whole(Wire(n), data)
    case Piece(n, start, count, index, offset, total, data) =>
      Piece(Wire(n), Wire(start), count, index, offset, total, data)
  }

  /** The numbers in flight whose window falls on slot w of the 16. */
  function InSlot(inFlight: set<nat>, w: nat): set<nat> {
    set m | m in inFlight && WindowOf(m) % WINDOWS == w
  }

  function SlotAhead(n: nat, d: nat): nat { (WindowOf(n) + d) % WINDOWS }

  /** A number opens a window only if that window and the nine after it are free, modulo 16, and the window
      before it is not entirely in flight. */
  predicate MaySend(inFlight: set<nat>, n: nat) {
    n % WINDOW == 0 ==>
      && |InSlot(inFlight, SlotAhead(n, WINDOWS - 1))| < WINDOW
      && forall d :: 0 <= d < FREE_WINDOWS + 2 ==> InSlot(inFlight, SlotAhead(n, d)) == {}
  }

  predicate Enabled(s: System, e: Event) {
    match e
    case Queue(p) => p.piece > 0
    case Transmit => s.sent + 1 < First(s.packets, |s.packets|) && MaySend(s.inFlight, s.sent + 1)
    case Deliver(j, i, _) =>
      Exists(s, j, i) && NumberOf(s, j, i) <= s.sent
      && WindowOf(s.receiver.base) <= WindowOf(First(s.packets, j)) + STALE
    case Acknowledge(j, i) =>
      (j, i) in s.acks && j < |s.packets| && s.sent < NumberOf(s, j, i) + SPAN
  }

  /** The sender drops what matches the 16 bits of an acknowledgement. */
  function Acknowledged(inFlight: set<nat>, w: nat): set<nat> {
    set m | m in inFlight && Wire(m) != w
  }

  function Step(s: System, e: Event): System
    requires Enabled(s, e)
  {
    match e
    case Queue(p) => s.(packets := s.packets + [p])
    case Transmit => s.(sent := s.sent + 1, inFlight := s.inFlight + {s.sent + 1})
    case Deliver(j, i, full) =>
      var m := OnWire(Command(s.packets, j, i));
      match Arrive(s.receiver, Resolved(s.receiver.base, m), s.limit, full) {
        case Refused => s
        case Taken(r) =>
          s.(receiver := r,
             acks := if Acknowledges(r.base, Resolve(r.base, m.number)) then s.acks + {(j, i)} else s.acks)
      }
    case Acknowledge(j, i) => s.(inFlight := Acknowledged(s.inFlight, Wire(NumberOf(s, j, i))))
  }

  function Initial(limit: nat): System { System([], 0, {}, Receiver(0, [], []), {}, limit) }

  /** A run: events that are not enabled have no effect. */
  function Run(limit: nat, events: seq<Event>): System {
    if events == [] then Initial(limit)
    else
      var s := Run(limit, events[..|events| - 1]);
      var e := events[|events| - 1];
      if Enabled(s, e) then Step(s, e) else s
  }

  function Datas(packets: seq<Packet>): (d: seq<seq<Byte>>)
    ensures |d| == |packets|
    ensures forall j :: 0 <= j < |d| ==> d[j] == packets[j].data
  {
    seq(|packets|, j requires 0 <= j < |packets| => packets[j].data)
  }

  /** A queued command holds fragments of packet j, all of them transmitted, in place. */
  ghost predicate Match(packets: seq<Packet>, x: Incoming, j: nat, sent: nat)
    requires j < |packets|
  {
    && x.number == First(packets, j) <= sent
    && if Pieces(packets[j]) == 1 then x.count == 0 && x.remaining == 0 && x.data == packets[j].data
       else && x.count == |x.arrived| == Pieces(packets[j]) && x.remaining == Missing(x.arrived)
            && Filled(x.data, packets[j].data, packets[j].piece, x.arrived)
            && forall i :: 0 <= i < |x.arrived| && x.arrived[i] ==> x.number + i <= sent
  }

  ghost predicate Known(packets: seq<Packet>, x: Incoming, k: nat, sent: nat) {
    exists j :: k <= j < |packets| && Match(packets, x, j, sent)
  }

  /** The receiver has dispatched the first packets, and its queue holds parts of later ones. */
  ghost predicate Tracks(packets: seq<Packet>, r: Receiver, sent: nat) {
    && |r.dispatched| <= |packets| && r.base == First(packets, |r.dispatched|) - 1 <= sent
    && (forall j :: 0 <= j < |r.dispatched| ==> r.dispatched[j] == packets[j].data)
    && Sorted(r.queue)
    && forall a :: 0 <= a < |r.queue| ==> Known(packets, r.queue[a], |r.dispatched|, sent)
  }

  /** Nothing is left that could be dispatched. */
  predicate Settled(r: Receiver) { r.queue != [] ==> !Dispatchable(r) }

  /** Fragment i of packet j is stored, or its packet has been dispatched. */
  ghost predicate Held(packets: seq<Packet>, r: Receiver, j: nat, i: nat)
    requires j < |packets|
  {
    || j < |r.dispatched|
    || exists a :: 0 <= a < |r.queue| && HoldsPiece(packets, r.queue[a], j, i)
  }

  ghost predicate HoldsPiece(packets: seq<Packet>, x: Incoming, j: nat, i: nat)
    requires j < |packets|
  {
    x.number == First(packets, j) && (x.count > 0 ==> i < |x.arrived| && x.arrived[i])
  }

  /** The sender: numbers in flight lie in the window of the last one sent or the six before it. */
  ghost predicate Narrow(s: System) {
    forall m :: m in s.inFlight ==> 1 <= m <= s.sent && WindowOf(s.sent) <= WindowOf(m) + 6
  }

  /** What has been acknowledged, or is no longer waited for, the receiver holds. */
  ghost predicate Sound(s: System) {
    && (forall j, i :: (j, i) in s.acks ==>
         Exists(s, j, i) && NumberOf(s, j, i) <= s.sent && Held(s.packets, s.receiver, j, i))
    && forall j, i :: Exists(s, j, i) && NumberOf(s, j, i) <= s.sent && NumberOf(s, j, i) !in s.inFlight ==>
         Held(s.packets, s.receiver, j, i)
  }

  ghost predicate Cuttable(packets: seq<Packet>) {
    forall j :: 0 <= j < |packets| ==> packets[j].piece > 0
  }

  ghost predicate Invariant(s: System) {
    && Cuttable(s.packets) && s.sent < First(s.packets, |s.packets|)
    && Tracks(s.packets, s.receiver, s.sent) && Settled(s.receiver)
    && Narrow(s) && Sound(s) && Near(s)
  }

  /** The sender stays within seven windows of the receiver: what it sent in the seventh window or later, the
      receiver has not acknowledged. */
  ghost predicate Near(s: System) {
    var horizon := WindowOf(s.receiver.base) + FREE_WINDOWS - 1;
    && WindowOf(s.sent) <= horizon
    && (forall n :: 1 <= n <= s.sent && WindowOf(n) >= horizon ==> n in s.inFlight)
    && forall j, i :: (j, i) in s.acks ==> j < |s.packets| && WindowOf(NumberOf(s, j, i)) < horizon
  }

  // Packets and their numbers.

  lemma {:induction false} FirstGrows(packets: seq<Packet>, j: nat, l: nat)
    requires j < l <= |packets|
    ensures First(packets, j) + Pieces(packets[j]) <= First(packets, l)
    decreases l
  {
    if j < l - 1 { FirstGrows(packets, j, l - 1); }
  }

  lemma {:induction false} FirstInjective(packets: seq<Packet>, j: nat, l: nat)
    requires j < |packets| && l < |packets| && First(packets, j) == First(packets, l)
    ensures j == l
  {
    if j < l { FirstGrows(packets, j, l); }
    if l < j { FirstGrows(packets, l, j); }
  }

  // Dispatching.

  /** Dispatching hands over whole packets, the next ones in order, and keeps what was held. */
  lemma {:induction false} DispatchTracks(packets: seq<Packet>, r: Receiver, sent: nat)
    requires Cuttable(packets) && Tracks(packets, r, sent)
    ensures Tracks(packets, Dispatch(r), sent) && Settled(Dispatch(r)) && r.base <= Dispatch(r).base
    ensures forall j, i :: 0 <= j < |packets| && 0 <= i && Held(packets, r, j, i) ==> Held(packets, Dispatch(r), j, i)
    decreases |r.queue|
  {
    hide First, Pieces, HoldsPiece;
    if r.queue != [] && Dispatchable(r) {
      var next := Receiver(r.base + Span(r.queue[0]), r.queue[1..], r.dispatched + [r.queue[0].data]);
      DispatchOne(packets, r, sent);
      DispatchTracks(packets, next, sent);
      forall j: nat, i: nat | j < |packets| && Held(packets, r, j, i) ensures Held(packets, Dispatch(r), j, i) {
        OneKeepsHeld(packets, r, sent, j, i);
        assert Held(packets, next, j, i);
      }
    }
  }

  lemma {:induction false} DispatchOne(packets: seq<Packet>, r: Receiver, sent: nat)
    requires Cuttable(packets) && Tracks(packets, r, sent) && r.queue != [] && Dispatchable(r)
    ensures var next := Receiver(r.base + Span(r.queue[0]), r.queue[1..], r.dispatched + [r.queue[0].data]);
            Tracks(packets, next, sent)
  {
    var k := |r.dispatched|;
    var x := r.queue[0];
    HeadIsNext(packets, r, sent, |r.dispatched|);
    forall a | 1 <= a < |r.queue| ensures Known(packets, r.queue[a], k + 1, sent) {
      var j :| k <= j < |packets| && Match(packets, r.queue[a], j, sent);
      assert r.queue[a].number > x.number;
      assert j != k;
    }
  }

  lemma {:induction false} HeadHome(packets: seq<Packet>, r: Receiver, sent: nat)
    requires Tracks(packets, r, sent) && r.queue != [] && Dispatchable(r)
    ensures |r.dispatched| < |packets| && Match(packets, r.queue[0], |r.dispatched|, sent)
  {
    assert Known(packets, r.queue[0], |r.dispatched|, sent);
    var j :| |r.dispatched| <= j < |packets| && Match(packets, r.queue[0], j, sent);
    FirstInjective(packets, j, |r.dispatched|);
  }

  /** A command that can be dispatched is the next packet, complete. */
  lemma {:induction false} HeadIsNext(packets: seq<Packet>, r: Receiver, sent: nat, k: nat)
    requires Cuttable(packets) && Tracks(packets, r, sent) && r.queue != [] && Dispatchable(r) && k == |r.dispatched|
    ensures k < |packets| && Match(packets, r.queue[0], k, sent)
    ensures r.queue[0].data == packets[k].data
    ensures First(packets, k + 1) == r.base + Span(r.queue[0]) + 1 <= sent + 1
  {
    HeadHome(packets, r, sent);
    CompleteIsWhole(packets, r.queue[0], k, sent);
  }

  lemma {:induction false} CompleteIsWhole(packets: seq<Packet>, x: Incoming, j: nat, sent: nat)
    requires j < |packets| && Cuttable(packets) && Match(packets, x, j, sent) && x.remaining == 0
    ensures x.data == packets[j].data && Span(x) == Pieces(packets[j]) && x.number + Span(x) - 1 <= sent
  {
    var p := packets[j];
    if Pieces(p) > 1 {
      FilledIsWhole(x.data, p.data, p.piece, x.arrived);
      MissingNone(x.arrived, Pieces(p) - 1);
    }
  }

  lemma {:induction false} OneKeepsHeld(packets: seq<Packet>, r: Receiver, sent: nat, j: nat, i: nat)
    requires Cuttable(packets) && Tracks(packets, r, sent) && r.queue != [] && Dispatchable(r)
    requires j < |packets| && Held(packets, r, j, i)
    ensures var next := Receiver(r.base + Span(r.queue[0]), r.queue[1..], r.dispatched + [r.queue[0].data]);
            Held(packets, next, j, i)
  {
    var next := Receiver(r.base + Span(r.queue[0]), r.queue[1..], r.dispatched + [r.queue[0].data]);
    if j >= |r.dispatched| {
      var a :| 0 <= a < |r.queue| && HoldsPiece(packets, r.queue[a], j, i);
      if a == 0 {
        HeadIsNext(packets, r, sent, |r.dispatched|);
        FirstInjective(packets, j, |r.dispatched|);
      } else {
        assert next.queue[a - 1] == r.queue[a];
      }
    }
  }

  // Arrivals.

  /** A command is recognised from its 16 bits when its number is at most nine windows behind or less than
      2^16 ahead. */
  lemma {:induction false} ResolvedExactly(base: nat, m: Message)
    requires base <= m.number < base + SPAN && (m.Piece? ==> base <= m.start < base + SPAN)
    ensures Resolved(base, OnWire(m)) == m
  {
    ResolveRecognises(base, m.number);
    if m.Piece? { ResolveRecognises(base, m.start); }
  }

  lemma {:induction false} PlaceTracks(packets: seq<Packet>, r: Receiver, x: Incoming, j: nat, sent: nat, i: nat)
    requires Tracks(packets, r, sent) && |r.dispatched| <= j < |packets| && Match(packets, x, j, sent)
    requires Find(r.queue, x.number) == |r.queue| && HoldsPiece(packets, x, j, i)
    ensures var next := r.(queue := Place(r.queue, x));
            Tracks(packets, next, sent) && Held(packets, next, j, i) && Keeps(packets, r, next)
  {
    hide Match, HoldsPiece, First, Place, Find;
    var k := PlaceSorts(r.queue, x);
    var next := r.(queue := Place(r.queue, x));
    assert next.queue[k] == x;
    assert Known(packets, x, |r.dispatched|, sent);
    forall a | 0 <= a < |next.queue| ensures Known(packets, next.queue[a], |r.dispatched|, sent) {
      assert a != k ==> next.queue[a] == r.queue[if a < k then a else a - 1];
    }
    forall l: nat, h: nat | l < |packets| && Held(packets, r, l, h) ensures Held(packets, next, l, h) {
      if l >= |r.dispatched| {
        var a :| 0 <= a < |r.queue| && HoldsPiece(packets, r.queue[a], l, h);
        assert next.queue[if a < k then a else a + 1] == r.queue[a];
      }
    }
  }

  /** Whatever was held is still held. */
  ghost predicate Keeps(packets: seq<Packet>, r: Receiver, next: Receiver) {
    forall j: nat, i: nat :: j < |packets| && Held(packets, r, j, i) ==> Held(packets, next, j, i)
  }

  lemma {:induction false} UpdateTracks(packets: seq<Packet>, r: Receiver, a: nat, x: Incoming, j: nat, sent: nat, i: nat)
    requires Tracks(packets, r, sent) && a < |r.queue| && |r.dispatched| <= j < |packets|
    requires Match(packets, x, j, sent) && x.number == r.queue[a].number && HoldsPiece(packets, x, j, i)
    requires forall h: nat :: HoldsPiece(packets, r.queue[a], j, h) ==> HoldsPiece(packets, x, j, h)
    ensures var next := r.(queue := r.queue[a := x]);
            Tracks(packets, next, sent) && Held(packets, next, j, i) && Keeps(packets, r, next)
  {
    var next := r.(queue := r.queue[a := x]);
    assert next.queue[a] == x;
    forall l: nat, h: nat | l < |packets| && Held(packets, r, l, h) ensures Held(packets, next, l, h) {
      if l >= |r.dispatched| {
        var b :| 0 <= b < |r.queue| && HoldsPiece(packets, r.queue[b], l, h);
        if b == a {
          FirstInjective(packets, l, j);
        }
        assert HoldsPiece(packets, next.queue[b], l, h);
      }
    }
    assert Known(packets, x, |r.dispatched|, sent);
    assert forall b :: 0 <= b < |next.queue| && b != a ==> next.queue[b] == r.queue[b];
  }

  lemma {:induction false} FreshMatches(packets: seq<Packet>, j: nat, i: nat, sent: nat)
    requires Cuttable(packets) && j < |packets| && 1 < Pieces(packets[j]) && i < Pieces(packets[j])
    requires First(packets, j) <= sent
    ensures Match(packets, Fresh(Command(packets, j, i)), j, sent)
  {
  }

  /** Marking a fragment puts its bytes in place. */
  lemma {:induction false} MarkedMatches(packets: seq<Packet>, x: Incoming, j: nat, i: nat, sent: nat)
    requires Cuttable(packets) && j < |packets| && 1 < Pieces(packets[j]) && i < Pieces(packets[j])
    requires Match(packets, x, j, sent) && First(packets, j) + i <= sent
    ensures var m := Command(packets, j, i);
            && m.offset + |m.data| <= |x.data|
            && Match(packets, Marked(x, m), j, sent) && HoldsPiece(packets, Marked(x, m), j, i)
            && forall h: nat :: HoldsPiece(packets, x, j, h) ==> HoldsPiece(packets, Marked(x, m), j, h)
  {
    var m := Command(packets, j, i);
    var p := packets[j];
    CountBounds(|p.data|, p.piece, i);
    MissingNone(x.arrived, i);
    if !x.arrived[i] {
      PutFills(x.data, p.data, p.piece, x.arrived, i);
      assert Marked(x, m).data == Put(x.data, m.offset, Bytes(p.data, PieceAt(|p.data|, p.piece, i)));
    }
  }

  /** The next state after a store and the dispatch that follows it. */
  ghost predicate Advances(packets: seq<Packet>, r: Receiver, next: Receiver, sent: nat) {
    Tracks(packets, next, sent) && Settled(next) && Keeps(packets, r, next) && r.base <= next.base
  }

  lemma {:induction false} Settles(packets: seq<Packet>, r: Receiver, mid: Receiver, sent: nat, j: nat, i: nat)
    requires Cuttable(packets) && Tracks(packets, mid, sent) && Keeps(packets, r, mid) && r.base <= mid.base
    requires j < |packets| && Held(packets, mid, j, i)
    ensures Advances(packets, r, Dispatch(mid), sent) && Held(packets, Dispatch(mid), j, i)
  {
    hide Tracks, Held, Settled, Dispatch, First;
    DispatchTracks(packets, mid, sent);
  }

  /** A queued command with the first number of a packet belongs to that packet. */
  lemma {:induction false} QueuedMatches(packets: seq<Packet>, r: Receiver, sent: nat, a: nat, j: nat)
    requires Tracks(packets, r, sent) && a < |r.queue| && j < |packets| && r.queue[a].number == First(packets, j)
    ensures Match(packets, r.queue[a], j, sent)
  {
    assert Known(packets, r.queue[a], |r.dispatched|, sent);
    var l :| |r.dispatched| <= l < |packets| && Match(packets, r.queue[a], l, sent);
    FirstInjective(packets, l, j);
  }

  lemma {:induction false} StartsAhead(packets: seq<Packet>, r: Receiver, sent: nat, j: nat)
    requires Tracks(packets, r, sent) && |r.dispatched| <= j < |packets|
    ensures First(packets, j) > r.base
  {
    if |r.dispatched| < j { FirstGrows(packets, |r.dispatched|, j); }
  }

  /** A command of a packet not dispatched yet is stored, unless its packet starts too far ahead. */
  ghost predicate Stores(packets: seq<Packet>, r: Receiver, outcome: Outcome, sent: nat, j: nat, i: nat)
    requires j < |packets|
  {
    outcome.Taken? ==>
      && Advances(packets, r, outcome.receiver, sent)
      && (Held(packets, outcome.receiver, j, i) || (outcome.receiver == r && TooFar(r.base, First(packets, j))))
  }

  lemma {:induction false} ArriveWhole(packets: seq<Packet>, r: Receiver, sent: nat, j: nat, limit: nat, full: bool)
    requires Cuttable(packets) && Tracks(packets, r, sent) && Settled(r)
    requires |r.dispatched| <= j < |packets| && Pieces(packets[j]) == 1 && First(packets, j) <= sent
    ensures Stores(packets, r, Arrive(r, Command(packets, j, 0), limit, full), sent, j, 0)
  {
    hide First, Pieces, Find, Place, Dispatch, TooFar, Tracks, Settled, Held;
    StartsAhead(packets, r, sent, j);
    var start := First(packets, j);
    var k := Find(r.queue, start);
    if k < |r.queue| {
      QueuedMatches(packets, r, sent, k, j);
      assert HoldsPiece(packets, r.queue[k], j, 0);
      assert Held(packets, r, j, 0) by { HeldAt(packets, r, k, j, 0); }
    } else {
      var x := Incoming(start, 0, 0, [], packets[j].data);
      PlaceTracks(packets, r, x, j, sent, 0);
      Settles(packets, r, r.(queue := Place(r.queue, x)), sent, j, 0);
    }
  }

  lemma {:induction false} HeldAt(packets: seq<Packet>, r: Receiver, a: nat, j: nat, i: nat)
    requires a < |r.queue| && j < |packets| && HoldsPiece(packets, r.queue[a], j, i)
    ensures Held(packets, r, j, i)
  {
  }

  lemma {:induction false} ArrivePiece(packets: seq<Packet>, r: Receiver, sent: nat, j: nat, i: nat, limit: nat, full: bool)
    requires Cuttable(packets) && Tracks(packets, r, sent) && Settled(r)
    requires |r.dispatched| <= j < |packets| && i < Pieces(packets[j]) && 1 < Pieces(packets[j]) && First(packets, j) + i <= sent
    ensures Stores(packets, r, Arrive(r, Command(packets, j, i), limit, full), sent, j, i)
  {
    hide First, Pieces, Find, Place, Dispatch, TooFar, Tracks, Settled, Held, Match, Fresh, Marked, HoldsPiece;
    StartsAhead(packets, r, sent, j);
    var m := Command(packets, j, i);
    var k := Find(r.queue, First(packets, j));
    if k < |r.queue| {
      QueuedMatches(packets, r, sent, k, j);
      MarkedMatches(packets, r.queue[k], j, i, sent);
      var x := Marked(r.queue[k], m);
      MarkedKeepsNumber(r.queue[k], m);
      UpdateTracks(packets, r, k, x, j, sent, i);
      Settles(packets, r, r.(queue := r.queue[k := x]), sent, j, i);
    } else {
      FreshMatches(packets, j, i, sent);
      MarkedMatches(packets, Fresh(m), j, i, sent);
      var x := Marked(Fresh(m), m);
      MarkedKeepsNumber(Fresh(m), m);
      PlaceTracks(packets, r, x, j, sent, i);
      Settles(packets, r, r.(queue := Place(r.queue, x)), sent, j, i);
    }
  }

  lemma {:induction false} MarkedKeepsNumber(x: Incoming, m: Message)
    requires m.Piece? && m.offset + |m.data| <= |x.data|
    ensures Marked(x, m).number == x.number && Fresh(m).number == m.start
  {
  }

  // How far the sender can be ahead.

  /** While something is undelivered, the next packet has a fragment the receiver does not hold. */
  lemma {:induction false} MissingPiece(packets: seq<Packet>, r: Receiver, sent: nat) returns (i: nat)
    requires Tracks(packets, r, sent) && Settled(r) && |r.dispatched| < |packets|
    ensures i < Pieces(packets[|r.dispatched|]) && !Held(packets, r, |r.dispatched|, i)
  {
    var k := |r.dispatched|;
    var a := Find(r.queue, First(packets, k));
    if a == |r.queue| {
      i := 0;
    } else {
      QueuedMatches(packets, r, sent, a, k);
      NextIsFirst(packets, r, sent, a);
      i := MissingSome(r.queue[0].arrived);
      assert forall b :: 0 < b < |r.queue| ==> r.queue[b].number != r.queue[0].number;
    }
  }

  /** The next packet can only be at the head of the queue. */
  lemma {:induction false} NextIsFirst(packets: seq<Packet>, r: Receiver, sent: nat, a: nat)
    requires Tracks(packets, r, sent) && a < |r.queue| && r.queue[a].number == r.base + 1
    ensures a == 0
  {
    if a > 0 {
      assert Known(packets, r.queue[0], |r.dispatched|, sent);
      var j :| |r.dispatched| <= j < |packets| && Match(packets, r.queue[0], j, sent);
      StartsAhead(packets, r, sent, j);
    }
  }

  lemma {:induction false} BaseOf(s: System)
    requires Invariant(s)
    ensures |s.receiver.dispatched| <= |s.packets|
    ensures s.receiver.base + 1 == First(s.packets, |s.receiver.dispatched|) <= s.sent + 1
    ensures s.receiver.base < s.sent ==> |s.receiver.dispatched| < |s.packets|
  {
  }

  // Deliveries.

  /** A copy of something dispatched changes nothing. */
  lemma {:induction false} StaleIsIgnored(s: System, j: nat, i: nat, full: bool)
    requires Invariant(s) && Enabled(s, Deliver(j, i, full)) && j < |s.receiver.dispatched|
    ensures var outcome := Arrive(s.receiver, Resolved(s.receiver.base, OnWire(Command(s.packets, j, i))), s.limit, full);
            outcome.Taken? ==> outcome.receiver == s.receiver
  {
    hide Tracks, Settled, First, Pieces, Sound, Narrow, Dispatch, Find, Place, Marked, Fresh;
    var start, base := First(s.packets, j), s.receiver.base;
    BaseOf(s);
    FirstGrows(s.packets, j, |s.receiver.dispatched|);
    BehindIsTooFar(base, start);
  }

  lemma {:induction false} BehindIsTooFar(base: nat, n: nat)
    requires n <= base && WindowOf(base) <= WindowOf(n) + 9
    ensures n == base ==> Resolve(base, Wire(n)) == base
    ensures n < base ==> TooFar(base, Resolve(base, Wire(n)))
  {
    WindowsApart(n, base);
    ResolveRecognises(base, n);
    LaterWindow(n);
  }

  /** Nine windows are the exact reach: a single command dispatched less than 2^16 numbers ago is dropped as too far
      ahead just if it is no more than nine windows behind; otherwise it is taken for a new one, and stored. */
  lemma {:induction false} StaleExactly(r: Receiver, n: nat, data: seq<Byte>, limit: nat)
    requires n < r.base < n + SPAN && |data| <= limit && Settled(r) && Find(r.queue, n + SPAN) == |r.queue|
    ensures var late := Arrive(r, Resolved(r.base, Whole(Wire(n), data)), limit, false);
            if WindowOf(r.base) <= WindowOf(n) + STALE then late == Taken(r)
            else late == Taken(Dispatch(r.(queue := Place(r.queue, Incoming(n + SPAN, 0, 0, [], data)))))
  {
    hide Dispatch, Place, Find, Settled, Resolve;
    ResolveRecognises(r.base, n);
    LaterWindow(n);
  }

  lemma {:induction false} AheadIsSeen(base: nat, n: nat)
    requires base <= n && WindowOf(n) <= WindowOf(base) + FREE_WINDOWS
    ensures n < base + SPAN && Resolve(base, Wire(n)) == n
  {
    WindowsApart(base, n);
    ResolveRecognises(base, n);
  }

  /** What an arrival leaves: the receiver still tracks the packets, holds all it held, and holds what it
      acknowledges. */
  ghost predicate Received(s: System, outcome: Outcome, j: nat, i: nat)
    requires Exists(s, j, i)
  {
    outcome.Taken? ==>
      && Advances(s.packets, s.receiver, outcome.receiver, s.sent)
      && var base := outcome.receiver.base;
         Acknowledges(base, Resolve(base, Wire(NumberOf(s, j, i)))) ==> Held(s.packets, outcome.receiver, j, i)
  }

  /** What a receiver acknowledges lies before the seventh window from it. */
  lemma {:induction false} AcknowledgedIsNear(base: nat, n: nat)
    requires WindowOf(n) <= WindowOf(base) + FREE_WINDOWS - 1 && Acknowledges(base, Resolve(base, Wire(n)))
    ensures WindowOf(n) < WindowOf(base) + FREE_WINDOWS - 1
  {
    if base <= n {
      AheadIsSeen(base, n);
    } else {
      WindowsApart(n, base);
    }
  }

  lemma {:induction false} DeliverReceives(s: System, j: nat, i: nat, full: bool)
    requires Invariant(s) && Enabled(s, Deliver(j, i, full))
    ensures Received(s, Arrive(s.receiver, Resolved(s.receiver.base, OnWire(Command(s.packets, j, i))), s.limit, full), j, i)
  {
    hide Tracks, Settled, First, Pieces, Sound, Narrow, Dispatch, Find, Place, Marked, Fresh, Arrive, TooFar;
    if j < |s.receiver.dispatched| {
      StaleIsIgnored(s, j, i, full);
    } else {
      FreshReceives(s, j, i, full);
    }
  }

  lemma {:induction false} FreshReceives(s: System, j: nat, i: nat, full: bool)
    requires Invariant(s) && Enabled(s, Deliver(j, i, full)) && |s.receiver.dispatched| <= j
    ensures Received(s, Arrive(s.receiver, Resolved(s.receiver.base, OnWire(Command(s.packets, j, i))), s.limit, full), j, i)
  {
    hide Tracks, Settled, First, Pieces, Sound, Narrow, Dispatch, Find, Place, Marked, Fresh, Arrive, Held, Command, Advances;
    var r, n := s.receiver, NumberOf(s, j, i);
    StartsAhead(s.packets, r, s.sent, j);
    WindowsApart(n, s.sent);
    WindowsApart(First(s.packets, j), n);
    AheadIsSeen(r.base, n);
    AheadIsSeen(r.base, First(s.packets, j));
    var m := Command(s.packets, j, i);
    ResolvedExactly(r.base, m);
    if m.Whole? {
      ArriveWhole(s.packets, r, s.sent, j, s.limit, full);
    } else {
      ArrivePiece(s.packets, r, s.sent, j, i, s.limit, full);
    }
  }

  // Every step keeps the invariant.

  lemma {:induction false} KnownGrows(packets: seq<Packet>, more: seq<Packet>, x: Incoming, k: nat, sent: nat, later: nat)
    requires Known(packets, x, k, sent) && sent <= later && packets <= more
    ensures Known(more, x, k, later)
  {
    var j :| k <= j < |packets| && Match(packets, x, j, sent);
    FirstOfExtension(packets, more, j);
    assert Match(more, x, j, later);
  }

  lemma {:induction false} FirstOfExtension(packets: seq<Packet>, more: seq<Packet>, j: nat)
    requires packets <= more && j <= |packets|
    ensures First(more, j) == First(packets, j)
  {
    if j > 0 { FirstOfExtension(packets, more, j - 1); }
  }

  lemma {:induction false} TracksGrows(packets: seq<Packet>, more: seq<Packet>, r: Receiver, sent: nat, later: nat)
    requires Tracks(packets, r, sent) && sent <= later && packets <= more
    ensures Tracks(more, r, later)
    ensures forall j: nat, i: nat :: j < |packets| ==> (Held(packets, r, j, i) <==> Held(more, r, j, i))
  {
    FirstOfExtension(packets, more, |r.dispatched|);
    forall a | 0 <= a < |r.queue| ensures Known(more, r.queue[a], |r.dispatched|, later) {
      KnownGrows(packets, more, r.queue[a], |r.dispatched|, sent, later);
    }
    forall j: nat, i: nat | j < |packets| ensures Held(packets, r, j, i) <==> Held(more, r, j, i) {
      FirstOfExtension(packets, more, j);
      assert forall a :: 0 <= a < |r.queue| ==> (HoldsPiece(packets, r.queue[a], j, i) <==> HoldsPiece(more, r.queue[a], j, i));
    }
  }

  lemma {:induction false} QueueKeeps(s: System, p: Packet)
    requires Invariant(s) && Enabled(s, Queue(p))
    ensures Invariant(Step(s, Queue(p)))
  {
    hide Tracks, Settled, Held, Pieces;
    var t := Step(s, Queue(p));
    TracksGrows(s.packets, t.packets, s.receiver, s.sent, s.sent);
    FirstOfExtension(s.packets, t.packets, |s.packets|);
    forall j: nat, i: nat | Exists(t, j, i) && NumberOf(t, j, i) <= t.sent
      ensures Exists(s, j, i) && NumberOf(s, j, i) == NumberOf(t, j, i)
    {
      assert j < |s.packets|;
      FirstOfExtension(s.packets, t.packets, j);
    }
    forall j: nat, i: nat | (j, i) in s.acks ensures NumberOf(s, j, i) == NumberOf(t, j, i) {
      FirstOfExtension(s.packets, t.packets, j);
    }
  }

  lemma {:induction false} TransmitKeeps(s: System)
    requires Invariant(s) && Enabled(s, Transmit)
    ensures Invariant(Step(s, Transmit))
  {
    hide Tracks, Settled, Held, Pieces, First, Sound, Narrow, MaySend, Near;
    var t := Step(s, Transmit);
    TracksGrows(s.packets, t.packets, s.receiver, s.sent, t.sent);
    assert Narrow(t) by { TransmitStaysNarrow(s); }
    assert Sound(t) by { TransmitStaysSound(s); }
    assert Near(t) by { TransmitStaysNear(s); }
  }

  lemma {:induction false} TransmitStaysSound(s: System)
    requires Invariant(s) && Enabled(s, Transmit)
    ensures Sound(Step(s, Transmit))
  {
    hide Tracks, Settled, Held, Pieces, First, Narrow, MaySend;
    var t := Step(s, Transmit);
    assert forall j, i :: Exists(t, j, i) ==> Exists(s, j, i) && NumberOf(t, j, i) == NumberOf(s, j, i);
  }

  /** A window is not opened while the one before it is entirely in flight. */
  lemma {:induction false} TransmitStaysNear(s: System)
    requires Near(s) && MaySend(s.inFlight, s.sent + 1)
    requires Enabled(s, Transmit)
    ensures Near(Step(s, Transmit))
  {
    hide MaySend, First, Pieces;
    var n := s.sent + 1;
    NextWindow(s.sent);
    SameWindow(s.sent);
    if WindowOf(n) > WindowOf(s.receiver.base) + FREE_WINDOWS - 1 {
      FullWindowBlocks(s.inFlight, n);
    }
  }

  lemma {:induction false} FullWindowBlocks(inFlight: set<nat>, n: nat)
    requires WindowOf(n) > 1 && n % WINDOW == 0
    requires forall m :: 1 <= m < n && WindowOf(m) >= WindowOf(n) - 1 ==> m in inFlight
    ensures !MaySend(inFlight, n)
  {
    var before := Range(n - WINDOW, WINDOW);
    forall m | m in before ensures m in InSlot(inFlight, SlotAhead(n, WINDOWS - 1)) {
      PreviousWindow(n, m);
    }
    Contained(before, InSlot(inFlight, SlotAhead(n, WINDOWS - 1)));
  }

  lemma {:induction false} PreviousWindow(n: nat, m: nat)
    requires WindowOf(n) > 1 && n % WINDOW == 0 && n - WINDOW <= m < n
    ensures WindowOf(m) == WindowOf(n) - 1 && m >= 1 && WindowOf(m) % WINDOWS == SlotAhead(n, WINDOWS - 1)
  {
  }

  function Range(from: nat, count: nat): (r: set<nat>)
    ensures |r| == count && forall m :: m in r <==> from <= m < from + count
  {
    if count == 0 then {} else Range(from, count - 1) + {from + count - 1}
  }

  lemma {:induction false} Contained(a: set<nat>, b: set<nat>)
    requires a <= b
    ensures |a| <= |b|
  {
    assert b == a + (b - a);
  }

  lemma {:induction false} TransmitStaysNarrow(s: System)
    requires Narrow(s) && MaySend(s.inFlight, s.sent + 1)
    ensures Narrow(s.(sent := s.sent + 1, inFlight := s.inFlight + {s.sent + 1}))
  {
    EntryIsNarrow(s.inFlight, s.sent);
  }

  /** The window test keeps what is in flight within seven windows. */
  lemma {:induction false} EntryIsNarrow(inFlight: set<nat>, last: nat)
    requires forall m :: m in inFlight ==> 1 <= m <= last && WindowOf(last) <= WindowOf(m) + 6
    requires MaySend(inFlight, last + 1)
    ensures forall m :: m in inFlight ==> WindowOf(last + 1) <= WindowOf(m) + 6
  {
    var n := last + 1;
    forall m | m in inFlight ensures WindowOf(n) <= WindowOf(m) + 6 {
      if n % WINDOW == 0 {
        NextWindow(last);
        if WindowOf(n) == WindowOf(m) + 7 { SevenBehindBlocks(inFlight, n, m); }
      } else {
        SameWindow(last);
      }
    }
  }

  lemma {:induction false} NextWindow(n: nat)
    ensures (n + 1) % WINDOW == 0 ==> WindowOf(n + 1) == WindowOf(n) + 1
  {
  }

  lemma {:induction false} SameWindow(n: nat)
    ensures (n + 1) % WINDOW != 0 ==> WindowOf(n + 1) == WindowOf(n)
  {
  }

  lemma {:induction false} SevenBehind(n: nat, m: nat)
    requires WindowOf(n) == WindowOf(m) + 7
    ensures WindowOf(m) % WINDOWS == SlotAhead(n, 9)
  {
  }

  lemma {:induction false} SevenBehindBlocks(inFlight: set<nat>, n: nat, m: nat)
    requires m in inFlight && n % WINDOW == 0 && WindowOf(n) == WindowOf(m) + 7
    ensures !MaySend(inFlight, n)
  {
    SevenBehind(n, m);
    assert m in InSlot(inFlight, SlotAhead(n, 9));
  }

  /** The discipline in the end: the first number of a window waits exactly while the window before it is entirely in
      flight, or something from seven windows before is. */
  lemma {:induction false} OpensExactly(inFlight: set<nat>, last: nat)
    requires forall m :: m in inFlight ==> 1 <= m <= last && last / 0x1000 <= m / 0x1000 + 6
    ensures MaySend(inFlight, last + 1) <==>
            || (last + 1) % 0x1000 != 0
            || ((exists m :: last + 1 - 0x1000 <= m <= last && m !in inFlight)
                && forall m :: m in inFlight ==> (last + 1) / 0x1000 <= m / 0x1000 + 6)
  {
    hide MaySend;
    var n := last + 1;
    if n % WINDOW == 0 {
      if m :| m in inFlight && WindowOf(n) > WindowOf(m) + 6 {
        NextWindow(last);
        SevenBehindBlocks(inFlight, n, m);
      } else {
        LaterSlotsFree(inFlight, n);
        PreviousSlot(inFlight, n);
      }
    }
    OpensOnSlots(inFlight, n);
  }

  lemma {:induction false} OpensOnSlots(inFlight: set<nat>, n: nat)
    ensures MaySend(inFlight, n) <==>
            n % WINDOW != 0
            || (|InSlot(inFlight, SlotAhead(n, 15))| < WINDOW
                && forall d :: 0 <= d < 10 ==> InSlot(inFlight, SlotAhead(n, d)) == {})
  {
  }

  lemma {:induction false} LaterSlotsFree(inFlight: set<nat>, n: nat)
    requires n % WINDOW == 0 && forall m :: m in inFlight ==> m < n && WindowOf(n) <= WindowOf(m) + 6
    ensures forall d :: 0 <= d < 10 ==> InSlot(inFlight, SlotAhead(n, d)) == {}
  {
    forall d | 0 <= d < 10 ensures InSlot(inFlight, SlotAhead(n, d)) == {} {
      forall m | m in inFlight ensures WindowOf(m) % WINDOWS != SlotAhead(n, d) { SlotsApart(n, m, d); }
    }
  }

  lemma {:induction false} SlotsApart(n: nat, m: nat, d: nat)
    requires n % WINDOW == 0 && m < n && WindowOf(n) <= WindowOf(m) + 6 && d < 10
    ensures WindowOf(m) % WINDOWS != SlotAhead(n, d)
  {
    var w, v := WindowOf(n), WindowOf(m);
    assert v < w;
  }

  /** The slot before an opening window holds the window's own numbers only, so it is full just when all of them
      are in flight. */
  lemma {:induction false} PreviousSlot(inFlight: set<nat>, n: nat)
    requires n % WINDOW == 0 && n > 0 && forall m :: m in inFlight ==> 1 <= m < n && WindowOf(n) <= WindowOf(m) + 6
    ensures |InSlot(inFlight, SlotAhead(n, 15))| < WINDOW <==> exists m :: n - WINDOW <= m < n && m !in inFlight
  {
    var before, slot := Range(n - WINDOW, WINDOW), InSlot(inFlight, SlotAhead(n, 15));
    forall m | m in slot ensures m in before { SlotIsPrevious(n, m); }
    if m :| n - WINDOW <= m < n && m !in inFlight {
      assert slot <= before - {m};
      Contained(slot, before - {m});
    } else {
      assert n - WINDOW in inFlight;
      forall m | m in before ensures m in slot {
        PreviousWindow(n, m);
      }
      Contained(before, slot);
    }
  }

  lemma {:induction false} SlotIsPrevious(n: nat, m: nat)
    requires n % WINDOW == 0 && m < n && WindowOf(n) <= WindowOf(m) + 6 && WindowOf(m) % WINDOWS == SlotAhead(n, 15)
    ensures n - WINDOW <= m
  {
    var w, v := WindowOf(n), WindowOf(m);
    assert v < w;
    assert (w + 15 - v) % WINDOWS == 0;
  }

  lemma {:induction false} DeliverKeeps(s: System, j: nat, i: nat, full: bool)
    requires Invariant(s) && Enabled(s, Deliver(j, i, full))
    ensures Invariant(Step(s, Deliver(j, i, full)))
  {
    hide Tracks, Settled, Held, Pieces, First, Arrive, Acknowledges, Command, Resolve, Near;
    DeliverReceives(s, j, i, full);
    var t := Step(s, Deliver(j, i, full));
    if t != s {
      forall l: nat, h: nat | Exists(t, l, h) && NumberOf(t, l, h) <= t.sent && NumberOf(t, l, h) !in t.inFlight
        ensures Held(t.packets, t.receiver, l, h)
      {
        assert Exists(s, l, h) && NumberOf(s, l, h) == NumberOf(t, l, h);
        assert Held(s.packets, s.receiver, l, h);
      }
      forall l: nat, h: nat | (l, h) in t.acks
        ensures Exists(t, l, h) && NumberOf(t, l, h) <= t.sent && Held(t.packets, t.receiver, l, h)
      {
        assert Exists(s, l, h) && NumberOf(s, l, h) == NumberOf(t, l, h);
        assert (l, h) in s.acks ==> Held(s.packets, s.receiver, l, h);
      }
      DeliverStaysNear(s, t, j, i);
    }
  }

  lemma {:induction false} DeliverStaysNear(s: System, t: System, j: nat, i: nat)
    requires Near(s) && Exists(s, j, i) && NumberOf(s, j, i) <= s.sent && s.receiver.base <= t.receiver.base
    requires t == s.(receiver := t.receiver, acks := t.acks)
    requires t.acks == s.acks || (t.acks == s.acks + {(j, i)}
                                  && Acknowledges(t.receiver.base, Resolve(t.receiver.base, Wire(NumberOf(s, j, i)))))
    ensures Near(t)
  {
    hide First, Pieces, Resolve, Acknowledges;
    WindowsApart(s.receiver.base, t.receiver.base);
    WindowsApart(NumberOf(s, j, i), s.sent);
    if t.acks != s.acks { AcknowledgedIsNear(t.receiver.base, NumberOf(s, j, i)); }
    assert forall l, h :: (l, h) in t.acks ==> (l, h) == (j, i) || (l, h) in s.acks;
    assert forall l: nat, h: nat :: l < |s.packets| ==> NumberOf(t, l, h) == NumberOf(s, l, h);
  }

  lemma {:induction false} NumbersDiffer(s: System, j: nat, i: nat, l: nat, h: nat)
    requires Exists(s, j, i) && Exists(s, l, h) && NumberOf(s, j, i) == NumberOf(s, l, h)
    ensures j == l && i == h
  {
    if j < l { FirstGrows(s.packets, j, l); }
    if l < j { FirstGrows(s.packets, l, j); }
  }

  /** An acknowledgement takes its own number out of flight, if it is still there, and no other. */
  lemma {:induction false} AcknowledgesOne(s: System, n: nat)
    requires Narrow(s) && n <= s.sent < n + SPAN
    ensures Acknowledged(s.inFlight, Wire(n)) == s.inFlight - {n}
  {
    forall m | m in s.inFlight && m != n ensures Wire(m) != Wire(n) {
      WindowsApart(m, s.sent);
      if m < n { WireInjective(m, n); } else { WireInjective(n, m); }
    }
  }

  lemma {:induction false} AcknowledgeKeeps(s: System, j: nat, i: nat)
    requires Invariant(s) && Enabled(s, Acknowledge(j, i))
    ensures Invariant(Step(s, Acknowledge(j, i)))
  {
    hide Tracks, Settled, Held, Pieces, First, Acknowledged;
    var t := Step(s, Acknowledge(j, i));
    AcknowledgesOne(s, NumberOf(s, j, i));
    forall l: nat, h: nat | Exists(t, l, h) && NumberOf(t, l, h) <= t.sent && NumberOf(t, l, h) !in t.inFlight
      ensures Held(t.packets, t.receiver, l, h)
    {
      assert Exists(s, l, h) && NumberOf(s, l, h) == NumberOf(t, l, h);
      if NumberOf(s, l, h) == NumberOf(s, j, i) {
        NumbersDiffer(s, j, i, l, h);
      }
    }
    assert forall l, h :: (l, h) in t.acks ==> Exists(s, l, h) && NumberOf(t, l, h) == NumberOf(s, l, h);
  }

  /** Every reachable state satisfies the invariant. */
  lemma {:induction false} RunKeeps(limit: nat, events: seq<Event>)
    ensures Invariant(Run(limit, events))
  {
    if events == [] {
      assert First([], 0) == 1;
    } else {
      hide Invariant, Enabled, Step;
      var s, e := Run(limit, events[..|events| - 1]), events[|events| - 1];
      RunKeeps(limit, events[..|events| - 1]);
      if Enabled(s, e) {
        match e
        case Queue(p) => QueueKeeps(s, p);
        case Transmit => TransmitKeeps(s);
        case Deliver(j, i, full) => DeliverKeeps(s, j, i, full);
        case Acknowledge(j, i) => AcknowledgeKeeps(s, j, i);
      }
    }
  }

  // What it comes to.

  /** In every run the packets dispatched are the first ones queued, whole, once each and in order. */
  lemma {:induction false} DeliveredInOrder(limit: nat, events: seq<Event>)
    ensures var s := Run(limit, events); s.receiver.dispatched <= Datas(s.packets)
  {
    hide Run;
    RunKeeps(limit, events);
  }

  /** When everything queued was sent and nothing is in flight, everything has been dispatched. */
  lemma {:induction false} NothingIsLost(limit: nat, events: seq<Event>)
    requires var s := Run(limit, events); s.inFlight == {} && s.sent + 1 == First(s.packets, |s.packets|)
    ensures var s := Run(limit, events); s.receiver.dispatched == Datas(s.packets)
  {
    var s := Run(limit, events);
    RunKeeps(limit, events);
    hide Run;
    var k := |s.receiver.dispatched|;
    if k < |s.packets| {
      var i := MissingPiece(s.packets, s.receiver, s.sent);
      assert Exists(s, k, i);
      FirstGrows(s.packets, k, |s.packets|);
      assert false;
    }
  }

  /** Only what is stored or dispatched is ever acknowledged. */
  lemma {:induction false} AcknowledgementsAreSound(limit: nat, events: seq<Event>, j: nat, i: nat)
    requires (j, i) in Run(limit, events).acks
    ensures var s := Run(limit, events); Exists(s, j, i) && Held(s.packets, s.receiver, j, i)
  {
    hide Run, Held;
    RunKeeps(limit, events);
  }

  /** The sender is never more than seven windows ahead of the receiver, however long the packets are. */
  lemma {:induction false} SenderStaysNear(limit: nat, events: seq<Event>)
    ensures var s := Run(limit, events); s.receiver.base <= s.sent && WindowOf(s.sent) <= WindowOf(s.receiver.base) + 7
  {
    hide Run;
    RunKeeps(limit, events);
    BaseOf(Run(limit, events));
  }

  /** The numbers in flight lie in seven consecutive windows, so that 16 bits tell them apart. */
  lemma {:induction false} InFlightIsNarrow(limit: nat, events: seq<Event>, n: nat, m: nat)
    requires var s := Run(limit, events); n in s.inFlight && m in s.inFlight && n < m
    ensures WindowOf(m) - WindowOf(n) <= 6 && Wire(n) != Wire(m)
  {
    hide Run;
    var s := Run(limit, events);
    RunKeeps(limit, events);
    WindowsApart(n, m);
    WindowsApart(m, s.sent);
    WireInjective(n, m);
  }
}
