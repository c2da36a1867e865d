/** A first packet from one end to the other: the methods of a peer and the loop of its host, one after the other. */
module Conversation {
  import opened Windows
  import opened SendQueues
  import opened Packing
  import opened Queueing
  import opened Moves
  import opened Sending
  import opened SendLoop
  import opened PeerRuns
  import Commands
  import Carryless
  import Receiving
  import Delivery
  import Sender

  /** A world of one channel to which one packet was given that fits a datagram. */
  ghost predicate OnePacket(w: Sender.World, packet: Delivery.Packet) {
    Reached(w) && Sender.Ample(w) && |w.core.last| == 1 && w.packets[0] == [packet] && Delivery.Pieces(packet) == 1
  }

  /** When the passes of the host have ended, the packet has been transmitted: nothing could hold it back. */
  lemma {:induction false} FirstIsSent(p: Peer, w: Sender.World, packet: Delivery.Packet)
    requires OnePacket(w, packet) && Reflects(p, w) && p.Drained() && |packet.data| <= p.mtu
    ensures w.core.last[0] == w.core.q.issued[0] == 1
  {
    hide Sender.Run, Bounded, Waiting, Ok;
    var q, last := w.core.q, w.core.last;
    RunHolds(w);
    IssuedIsOne(w, packet);
    Sender.LastIsIssued(q, last, 0);
    if last[0] == 0 {
      var c := FirstWaits(q, last);
      CarriesFirst(w, packet, c);
      NothingInTransit(w, packet, c);
      NothingOpens(q.inFlight, c);
      assert false;
    }
  }

  lemma {:induction false} RunHolds(w: Sender.World)
    requires Reached(w)
    ensures Sender.Invariant(w) && Sender.Carried(w) && Ok(w.core.q, w.core.last)
  {
    hide Sender.Run, Bounded, Waiting, Ok, Sender.Carried;
    var events :| w == Sender.Run(|w.core.last|, w.limit, events);
    Sender.RunIsCarried(|w.core.last|, w.limit, events);
  }

  lemma {:induction false} IssuedIsOne(w: Sender.World, packet: Delivery.Packet)
    requires OnePacket(w, packet) && Sender.Invariant(w)
    ensures w.core.q.issued[0] == 1
  {
    hide Bounded, Waiting, Ok, Reached, Delivery.Pieces;
    assert Delivery.First([packet], 0) == 1;
    assert Delivery.First(w.packets[0], 1) == 2;
  }

  /** A number given and not transmitted is at the head of the reliable list. */
  lemma {:induction false} FirstWaits(q: Queues, last: seq<nat>) returns (c: Outgoing)
    requires Ok(q, last) && |last| == 1 && last[0] < q.issued[0]
    ensures q.reliable != [] && c == q.reliable[0] && c.packet && c.acknowledge && c.channel == 0
  {
    hide Keys, Distinct, WindowsAgree, AttemptedFirst;
    assert ChannelOk(q, last[0], 0);
    assert q.reliable != [];
    c := q.reliable[0];
    assert Placed(c, q);
  }

  /** It is the command of the packet. */
  lemma {:induction false} CarriesFirst(w: Sender.World, packet: Delivery.Packet, c: Outgoing)
    requires OnePacket(w, packet) && Sender.Carried(w) && Sender.Carries(w.core.q, c) && c.channel == 0
    ensures c.number == 1 && c.length == |packet.data|
  {
    hide Reached, Delivery.Pieces;
    assert Sender.IsPart(w, c);
    var j: nat, i: nat :| Sender.IsPartOf(w.packets[0], c, j, i);
    assert j == 0 && i == 0 && Delivery.First(w.packets[0], 0) == 1;
  }

  /** No other packet was sent. */
  lemma {:induction false} NothingInTransit(w: Sender.World, packet: Delivery.Packet, c: Outgoing)
    requires OnePacket(w, packet) && Sender.Carried(w) && Ok(w.core.q, w.core.last)
    requires c in w.core.q.reliable && c.acknowledge && c.channel == 0 && c.number == 1
    ensures w.core.q.transit == 0
  {
    hide Keys, WindowsAgree, AttemptedFirst, ChannelOk, Reached, Delivery.Pieces, Sender.IsPart;
    var q := w.core.q;
    forall d | d in q.sent ensures d.length == 0 {
      assert Placed(d, q);
      if d.packet {
        CarriesFirst(w, packet, d);
        ElsewhereIsOther(q, d, c);
        assert false;
      }
    }
    NoBytes(q.sent);
  }

  lemma {:induction false} ElsewhereIsOther(q: Queues, d: Outgoing, c: Outgoing)
    requires Distinct(q) && d in q.sent && d.acknowledge && c in q.reliable && c.acknowledge
    ensures Key(d) != Key(c)
  {
    hide Keys;
    KeyOfMember(q.sent, d);
    KeyOfMember(q.reliable, c);
    assert Waiting(q)[Key(d)] <= 1;
  }

  lemma {:induction false} NoBytes(s: seq<Outgoing>)
    requires forall c :: c in s ==> c.length == 0
    ensures SendQueues.Bytes(s) == 0
  {
    if s != [] { NoBytes(s[1..]); }
  }

  lemma {:induction false} NothingOpens(inFlight: seq<set<nat>>, c: Outgoing)
    requires |inFlight| == 1 && c.channel == 0 && c.number == 1
    ensures Delivery.MaySend(inFlight[0], c.number)
  {
  }

  /** Its copy arrives, is dispatched and acknowledged. */
  lemma {:induction false} FirstArrives(w: Sender.World, packet: Delivery.Packet)
    requires OnePacket(w, packet) && w.core.last[0] == 1 && w.receivers[0] == Receiving.Receiver(0, [], [])
    requires |packet.data| <= w.limit
    ensures var e := Sender.Deliver(0, 0, 0, false);
            && Sender.Enabled(w, e)
            && var v := Sender.Step(w, e);
               v.receivers[0].dispatched == [packet.data] && (0, 0) in v.acks[0] && v.core == w.core && v.packets == w.packets
  {
    hide Reached;
    var s := Sender.Seen(w, 0);
    assert Delivery.First(s.packets, 0) == 1;
    var m := Delivery.OnWire(Delivery.Command(s.packets, 0, 0));
    assert m == Receiving.Whole(1, packet.data) && Resolve(0, 1) == 1 && Resolve(1, 1) == 1;
    DispatchesFirst(packet.data);
  }

  lemma {:induction false} DispatchesFirst(data: seq<Carryless.Byte>)
    ensures var r := Receiving.Receiver(0, [], []);
            Receiving.Dispatch(r.(queue := Receiving.Place(r.queue, Receiving.Incoming(1, 0, 0, [], data))))
            == Receiving.Receiver(1, [], [data])
  {
    var x := Receiving.Incoming(1, 0, 0, [], data);
    assert Receiving.Place([], x) == [x] && [x][1..] == [];
    assert Receiving.Dispatch(Receiving.Receiver(1, [], [data])) == Receiving.Receiver(1, [], [data]);
  }

  /** After moves of its own a peer knows the same packets and receivers. */
  lemma {:induction false} MovedWorld(p: Peer, w: Sender.World) returns (v: Sender.World)
    requires HasMoved(p, w) && Sender.Ample(w)
    ensures Reflects(p, v) && v == w.(core := v.core) && |v.core.last| == |w.core.last|
  {
    hide Reflects, Through, Sender.Ample, Sender.After, Sender.Locals;
    var moves :| Reflects(p, Sender.After(w, Sender.Locals(moves)));
    Sender.MovesRun(w, moves);
    v := Sender.After(w, Sender.Locals(moves));
  }

  lemma {:induction false} StillReflects(p: Peer, w: Sender.World, e: Sender.Event)
    requires Reflects(p, w) && e.Deliver? && Sender.Enabled(w, e) && Sender.Step(w, e).core == w.core
    ensures Reflects(p, Sender.Step(w, e))
  {
    hide Ok, Bounded, Waiting, Reached, Sender.Enabled, Sender.Step;
    ReachedOn(w, e);
    ReachedIsInvariant(Sender.Step(w, e));
  }

  /** A connection of one channel: a packet that fits a datagram is sent reliably, the host's loop runs, the packet arrives,
      its acknowledgement comes back, and the loop runs again. Unless the network fails or the peer is given up, the packet
      has been dispatched at the other end, and the peer is as ready as before. */
  method FirstPacket(packet: Delivery.Packet, mtu: Commands.Short, windowSize: nat, limit: nat, now: nat, later: nat, sends: nat)
    returns (p: Peer, done: bool, ghost w: Sender.World)
    requires HEADER + FRAGMENT_SIZE + 4 < mtu && packet.piece == mtu - HEADER - FRAGMENT_SIZE && |packet.data| <= packet.piece
    requires |packet.data| <= limit
    ensures done ==>
              && p.Steady() && p.Drained() && HasMoved(p, w)
              && |w.receivers| == 1 && w.receivers[0].dispatched == [packet.data] && w.packets == [[packet]]
  {
    hide Ok, Bounded, Waiting, Reached, Sender.Enabled, Sender.Step, Sender.After, HasMoved, Delivery.First, Peer.Drained, Peer.Steady,
         Reflects, OnePacket, Sender.Ample, Host.Apart;
    done := false;
    p, w := Create(1, mtu, windowSize, limit, true);
    ReflectedIsReached(p, w);
    var code;
    ghost var events;
    code, events := Submit(p, 0, packet, limit, false, true, false, false, w);
    w := SubmittedFirst(w, events, packet);
    var h := new Host([p]);
    code := Flush(p, h, now, false, sends, w);
    if code != 0 || !p.active {
      return;
    }
    w := ArrivesNext(p, w, packet);
    SteadyIsTimed(p);
    ghost var e := Acknowledge(p, 0, 1, 0, 0, w);
    w := AfterAcknowledgement(w, e, packet);
    code := Flush(p, h, later, true, sends, w);
    done := code == 0 && p.active;
  }

  /** The packet has come to the other end. */
  ghost predicate Received(w: Sender.World, packet: Delivery.Packet) {
    |w.receivers| == 1 && w.receivers[0].dispatched == [packet.data] && w.packets == [[packet]]
  }

  /** The host's loop for this peer alone. */
  method Flush(p: Peer, h: Host, now: nat, checkForTimeouts: bool, sends: nat, ghost w: Sender.World) returns (code: int)
    requires h.peers == [p] && p.Steady() && Reflects(p, w)
    modifies p, p.numbering
    ensures p.active ==> p.Steady() && HasMoved(p, w) && (code == 0 ==> p.Drained())
  {
    hide Reflects, HasMoved, Peer.Steady, Peer.Drained;
    var datagrams;
    code, datagrams := SendOutgoingCommands(h, now, checkForTimeouts, false, sends, [w]);
    assert h.peers[0] == p;
  }

  lemma {:induction false} SubmittedFirst(w: Sender.World, events: seq<Sender.Event>, packet: Delivery.Packet)
    returns (v: Sender.World)
    requires w == Sender.Initial(1, w.limit) && Reached(w) && |events| == 1 && events[0].Submit? && events[0].ch == 0
    requires events[0].packet == packet && Sender.Enabled(w, events[0]) && |packet.data| <= packet.piece
    ensures v == Sender.After(w, events) && OnePacket(v, packet) && v.limit == w.limit
    ensures |v.receivers| == 1 && v.receivers[0] == Receiving.Receiver(0, [], [])
  {
    hide Sender.Enabled, Ok, Bounded, Waiting, QueuedAll, Reached, Sender.Ample, Sender.Step;
    assert events == [events[0]];
    AfterOne(w, events[0]);
    ReachedAfter(w, events);
    v := Sender.After(w, events);
    ReachedIsInvariant(v);
    SubmitsPacket(w, events[0]);
  }

  lemma {:induction false} SubmitsPacket(w: Sender.World, e: Sender.Event)
    requires Sender.Enabled(w, e) && e.Submit? && e.ch < |w.packets|
    ensures var v := Sender.Step(w, e);
            v.packets == w.packets[e.ch := w.packets[e.ch] + [e.packet]] && v.receivers == w.receivers && v.limit == w.limit
            && v.core.last == w.core.last
  {
  }

  lemma {:induction false} SteadyIsTimed(p: Peer)
    requires p.Steady()
    ensures p.TimerSet()
  {
  }

  /** After the loop the packet arrives. */
  lemma {:induction false} ArrivesNext(p: Peer, w: Sender.World, packet: Delivery.Packet) returns (v: Sender.World)
    requires HasMoved(p, w) && OnePacket(w, packet) && p.Drained() && |packet.data| <= p.mtu && |packet.data| <= w.limit
    requires |w.receivers| == 1 && w.receivers[0] == Receiving.Receiver(0, [], [])
    ensures Reflects(p, v) && Received(v, packet) && |v.core.last| == 1 && v.core.last[0] == 1 && |v.acks| == 1 && (0, 0) in v.acks[0]
    ensures Delivery.First(v.packets[0], 0) == 1
  {
    hide Reached, Reflects, HasMoved, Peer.Drained, Sender.Enabled, Sender.Step;
    var u := MovedWorld(p, w);
    ReflectedIsReached(p, u);
    FirstIsSent(p, u, packet);
    FirstArrives(u, packet);
    v := Sender.Step(u, Sender.Deliver(0, 0, 0, false));
    StillReflects(p, u, Sender.Deliver(0, 0, 0, false));
    ReflectedIsReached(p, v);
    assert w.packets == [[packet]];
  }

  lemma {:induction false} AfterAcknowledgement(w: Sender.World, e: Sender.Event, packet: Delivery.Packet) returns (v: Sender.World)
    requires e.Acknowledge? && Sender.Enabled(w, e) && Received(w, packet)
    ensures v == Sender.Step(w, e) && Received(v, packet)
  {
    hide Ok;
    v := Sender.Step(w, e);
  }
}
