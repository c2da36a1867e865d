/** What the methods of a peer do is what the events of the sender say. */
module PeerRuns {
  import opened Fragmentation
  import opened Windows
  import opened SendQueues
  import opened Matching
  import opened Packing
  import opened Queueing
  import Commands
  import opened Sending
  import opened Moves
  import opened SendLoop
  import opened Ledgers
  import Sender
  import Delivery

  /** A run of a peer leads to the world w. */
  ghost predicate Reached(w: Sender.World) {
    |w.core.last| <= PEER_CHANNEL && exists events :: w == Sender.Run(|w.core.last|, w.limit, events)
  }

  /** The peer holds what the world w says, and w is what a run led to. */
  ghost predicate Reflects(p: Peer, w: Sender.World)
    reads p, p.numbering
  {
    && Reached(w) && Sender.Ample(w)
    && p.Valid() && p.Numbered() && w.core == p.Present()
  }

  lemma {:induction false} ReachedIsInvariant(w: Sender.World)
    requires Reached(w)
    ensures Sender.Invariant(w) && Sender.Ample(w)
    ensures w.core.counters.issued == w.core.q.issued && |w.core.counters.unreliable| == |w.core.last|
    ensures Bounded(Waiting(w.core.q), w.core.counters)
  {
    hide Sender.Run, Sender.Invariant, Bounded, Waiting;
    var events :| w == Sender.Run(|w.core.last|, w.limit, events);
    Sender.RunIsCarried(|w.core.last|, w.limit, events);
    Sender.WorldSizes(w);
    Sender.RunSize(|w.core.last|, w.limit, events);
  }

  lemma {:induction false} ReachedOn(w: Sender.World, e: Sender.Event)
    requires Reached(w) && Sender.Enabled(w, e)
    ensures Reached(Sender.Step(w, e))
  {
    hide Sender.Enabled;
    var events :| w == Sender.Run(|w.core.last|, w.limit, events);
    assert (events + [e])[..|events|] == events;
    Sender.StepLimit(w, e);
    assert Sender.Step(w, e) == Sender.Run(|w.core.last|, w.limit, events + [e]);
  }

  lemma {:induction false} ReachedAfter(w: Sender.World, more: seq<Sender.Event>)
    requires Reached(w)
    ensures Reached(Sender.After(w, more))
  {
    hide Sender.Enabled, Sender.Step;
    if more != [] {
      var before := more[..|more| - 1];
      ReachedAfter(w, before);
      var v, e := Sender.After(w, before), more[|more| - 1];
      if Sender.Enabled(v, e) { ReachedOn(v, e); }
    }
  }

  /** A new peer starts a run. */
  lemma {:induction false} StartIsReached(channelCount: nat, limit: nat)
    requires channelCount <= PEER_CHANNEL
    ensures Reached(Sender.Initial(channelCount, limit))
  {
    assert Sender.Initial(channelCount, limit) == Sender.Run(channelCount, limit, []);
  }

  /** A new peer, and whether it is connected. */
  method Create(channelCount: nat, mtu: Commands.Short, windowSize: nat, limit: nat, connected: bool)
    returns (p: Peer, ghost w: Sender.World)
    requires channelCount <= PEER_CHANNEL && HEADER + ACKNOWLEDGE_SIZE <= mtu
    ensures fresh(p) && fresh(p.numbering) && p.Steady() && Reflects(p, w) && w == Sender.Initial(channelCount, limit)
    ensures p.mtu == mtu && |p.channels| == channelCount && p.active && p.reported && p.connected == connected
  {
    hide Ok, Bounded, Waiting;
    p := new Peer(channelCount, mtu, windowSize);
    p.connected := connected;
    w := Sender.Initial(channelCount, limit);
    StartIsReached(channelCount, limit);
    ReachedIsInvariant(w);
  }

  /** Whatever was done to a peer, every channel's receiver has dispatched the first packets submitted there, in order,
      and what it does not hold yet waits to be sent or acknowledged. */
  lemma {:induction false} PeerDelivers(p: Peer, w: Sender.World, ch: nat)
    requires Reflects(p, w) && ch < |w.core.last|
    ensures ch < |w.receivers| == |w.packets| && w.receivers[ch].dispatched <= Delivery.Datas(w.packets[ch])
    ensures forall j, i :: 0 <= j < |w.packets[ch]| && 0 <= i < Delivery.Pieces(w.packets[ch][j])
                           && !Delivery.Held(w.packets[ch], w.receivers[ch], j, i) ==>
                           (ch, Delivery.First(w.packets[ch], j) + i) in Waiting(p.State())
  {
    hide Sender.Run, Ok, Bounded, Waiting, Delivery.Held, Delivery.First, Delivery.Pieces;
    var events :| w == Sender.Run(|w.core.last|, w.limit, events);
    Sender.DeliveredInOrder(|w.core.last|, w.limit, events, ch);
    forall j: nat, i: nat | j < |w.packets[ch]| && i < Delivery.Pieces(w.packets[ch][j])
                            && !Delivery.Held(w.packets[ch], w.receivers[ch], j, i)
      ensures (ch, Delivery.First(w.packets[ch], j) + i) in Waiting(p.State())
    {
      Sender.NothingForgotten(|w.core.last|, w.limit, events, ch, j, i);
    }
  }

  /** Whether a packet goes out in commands that are to be acknowledged: by its flags, whether it has to be cut, and the
      unreliable number of its channel. */
  predicate GoesReliably(reliable: bool, unsequenced: bool, unreliableFragment: bool, large: bool, unreliable: nat) {
    reliable || (if large then !unreliableFragment else !unsequenced && unreliable == SPAN - 1) || (large && unreliable == SPAN - 1)
  }

  /** The number the next ping would get makes it join an unsequenced packet. */
  predicate PingIsZero(peerIssued: nat) { Wire(peerIssued + 1) == 0 }

  /** A packet given to `enet_peer_send`, with any flags. One that goes out reliably is the event that submits it; any other
      is queued command by command. A peer ready for the passes of its host stays so, except when an unsequenced packet is
      queued just before the number of the next ping is a multiple of 2^16. */
  method Submit(p: Peer, ch: nat, packet: Delivery.Packet, maximumPacketSize: nat, checksum: bool, reliable: bool,
                unsequenced: bool, unreliableFragment: bool, ghost w: Sender.World)
    returns (code: int, ghost events: seq<Sender.Event>)
    requires Reflects(p, w) && HEADER + FRAGMENT_SIZE + 4 < p.mtu && packet.piece == p.Piece(checksum)
    modifies p`outgoingCommands, p`outgoingSendReliableCommands, p`outgoingDataTotal, p`totalQueued, p.numbering
    ensures code == (if Refused(p.connected, ch, |p.channels|, |packet.data|, maximumPacketSize, packet.piece) then -1 else 0)
    ensures Reflects(p, Sender.After(w, events)) && (code == -1 ==> events == [])
    ensures code == 0 ==>
              var large := |packet.data| > packet.piece;
              if GoesReliably(reliable, unsequenced, unreliableFragment, large, old(p.numbering.unreliableNumbers)[ch]) then
                && |events| == 1 && events[0].Submit? && events[0].ch == ch && events[0].packet == packet
                && Sender.Enabled(w, events[0])
              else
                && |events| == (if large then PieceCount(|packet.data|, packet.piece) else 1)
                && forall e :: e in events ==> e.Local? && e.move.Enqueue? && e.move.c.channel == ch
    ensures old(p.Steady()) ==>
              (p.Steady() <==> !(code == 0 && unsequenced && !reliable && |packet.data| <= packet.piece
                                 && PingIsZero(p.numbering.peerIssued)))
  {
    hide Ok, Bounded, Waiting, CutPacket, Given, QueuedAll, Sender.Invariant, WholePacket, WholeKind, Peer.Sendable,
         Peer.TimerSet, JoinsRun, PingIsZero, GoesReliably, Reached, Sender.After, Sender.Enabled, Sender.Ample;
    ghost var cs, start;
    ghost var before, q := p.numbering.Numbers(), p.State();
    code, start, cs := p.Send(ch, |packet.data|, maximumPacketSize, checksum, reliable, unsequenced, unreliableFragment);
    ReachedIsInvariant(w);
    ghost var after := p.numbering.Numbers();
    if code == -1 {
      events := [];
      NothingQueued(q);
      AfterNone(w);
      return;
    }
    if !JoinsRun(q.outgoing, NextPing(before.peer)) {
      PingFollows(q, cs, before, after, ch, |packet.data|, packet.piece, reliable, unsequenced, unreliableFragment,
                  p.numbering.outgoingUnsequencedGroup);
    }
    events := SendRuns(w, cs, before, after, ch, packet, reliable, unsequenced, unreliableFragment,
                       p.numbering.outgoingUnsequencedGroup);
    ReachedAfter(w, events);
    ReachedIsInvariant(Sender.After(w, events));
  }

  /** What was queued is what the events queue. */
  lemma {:induction false} SendRuns(w: Sender.World, cs: seq<Outgoing>, before: Counters, after: Counters, ch: nat,
                                    packet: Delivery.Packet, reliable: bool, unsequenced: bool, unreliableFragment: bool, group: nat)
    returns (events: seq<Sender.Event>)
    requires Reached(w) && w.core.counters == before
    requires ch < |before.issued| && ch < |before.unreliable| && before.unreliable[ch] < SPAN
    requires 0 < packet.piece && ch < |w.core.last|
    requires |packet.data| <= packet.piece ==>
               && |cs| == 1 && WholePacket(cs[0], ch, |packet.data|) && Given(before, after, cs[0])
               && WholeKind(cs[0], reliable, unsequenced, before.unreliable[ch], group)
    requires |packet.data| > packet.piece ==>
               CutPacket(cs, before, after, ch, |packet.data|, packet.piece,
                         reliable || !unreliableFragment || before.unreliable[ch] == SPAN - 1)
    ensures Sender.After(w, events).core == Core(QueuedAll(w.core.q, cs), w.core.last, after)
    ensures var large := |packet.data| > packet.piece;
            if GoesReliably(reliable, unsequenced, unreliableFragment, large, before.unreliable[ch]) then
              events == [Sender.Submit(ch, packet, cs)] && Sender.Enabled(w, events[0])
            else
              && |events| == (if large then PieceCount(|packet.data|, packet.piece) else 1)
              && forall e :: e in events ==> e.Local? && e.move.Enqueue? && e.move.c.channel == ch
  {
    hide Sender.Invariant, Sender.CutInto, QueuedAll, Queued, Bounded, Waiting, Sender.Enabled, Sender.Step, Sender.After,
         Given, Reached, Sender.Ample;
    ReachedIsInvariant(w);
    var large := |packet.data| > packet.piece;
    if GoesReliably(reliable, unsequenced, unreliableFragment, large, before.unreliable[ch]) {
      events := [Sender.Submit(ch, packet, cs)];
      SendSubmits(w, before, after, packet, ch, cs);
      AfterOne(w, events[0]);
    } else if large {
      events := LooseEvents(cs, before, ch, |cs|);
      LooseRuns(w, cs, before, after, ch, |packet.data|, packet.piece, |cs|);
      assert cs[..|cs|] == cs;
    } else {
      events := [Sender.Local(Moves.Enqueue(cs[0], after))];
      EnqueueEnabled(w, cs[0], after);
      AfterOne(w, events[0]);
      OneQueued(w.core.q, cs);
    }
  }

  lemma {:induction false} OneQueued(q: Queues, cs: seq<Outgoing>)
    requires |cs| == 1
    ensures QueuedAll(q, cs) == Queued(q, cs[0])
  {
    assert cs[..0] == [];
    NothingQueued(q);
  }

  lemma {:induction false} AfterNone(w: Sender.World)
    ensures Sender.After(w, []) == w
  {
  }

  lemma {:induction false} AfterOne(w: Sender.World, e: Sender.Event)
    requires Sender.Enabled(w, e)
    ensures Sender.After(w, [e]) == Sender.Step(w, e)
  {
    hide Sender.Enabled, Sender.Step;
    assert [e][..0] == [];
  }

  ghost function LooseEvents(cs: seq<Outgoing>, before: Counters, ch: nat, k: nat): (events: seq<Sender.Event>)
    requires k <= |cs| && ch < |before.issued| && ch < |before.unreliable|
    ensures |events| == k && forall i :: 0 <= i < k ==> events[i].Local? && events[i].move.Enqueue? && events[i].move.c == cs[i]
  {
    if k == 0 then []
    else LooseEvents(cs, before, ch, k - 1) + [Sender.Local(Moves.Enqueue(cs[k - 1], Counted(before, ch, k, false)))]
  }

  lemma {:induction false} EnqueueEnabled(v: Sender.World, c: Outgoing, after: Counters)
    requires Sender.Ample(v) && !c.acknowledge && c.packet && c.attempts == 0 && c.channel < |v.core.last|
    requires Given(v.core.counters, after, c)
    ensures var e := Sender.Local(Moves.Enqueue(c, after));
            Sender.Enabled(v, e) && Sender.Step(v, e) == v.(core := Core(Queued(v.core.q, c), v.core.last, after))
  {
  }

  lemma {:induction false} LooseRuns(w: Sender.World, cs: seq<Outgoing>, before: Counters, after: Counters, ch: nat, length: nat,
                                     piece: nat, k: nat)
    requires Reached(w) && w.core.counters == before && k <= |cs|
    requires 0 < piece && CutPacket(cs, before, after, ch, length, piece, false)
    requires ch < |w.core.last| && before.unreliable[ch] < SPAN - 1
    ensures var v := Sender.After(w, LooseEvents(cs, before, ch, k));
            v == w.(core := Core(QueuedAll(w.core.q, cs[..k]), w.core.last, Counted(before, ch, k, false)))
  {
    hide Sender.Invariant, QueuedAll, Bounded, Waiting, Reached, Sender.Enabled, Sender.Step, Given, Queued, Sender.Ample;
    if k == 0 {
      assert cs[..0] == [];
      NothingQueued(w.core.q);
    } else {
      LooseRuns(w, cs, before, after, ch, length, piece, k - 1);
      var events, c := LooseEvents(cs, before, ch, k - 1), cs[k - 1];
      var e := Sender.Local(Moves.Enqueue(c, Counted(before, ch, k, false)));
      var v := Sender.After(w, events);
      ReachedAfter(w, events);
      ReachedIsInvariant(v);
      LooseGiven(cs, before, after, ch, length, piece, k);
      EnqueueEnabled(v, c, Counted(before, ch, k, false));
      assert (events + [e])[..|events|] == events;
      OneMoreQueued(w.core.q, cs[..k - 1], c);
      assert cs[..k - 1] + [c] == cs[..k];
    }
  }

  lemma {:induction false} LooseGiven(cs: seq<Outgoing>, before: Counters, after: Counters, ch: nat, length: nat, piece: nat, k: nat)
    requires 0 < piece && CutPacket(cs, before, after, ch, length, piece, false) && 0 < k <= |cs| && before.unreliable[ch] < SPAN - 1
    ensures Given(Counted(before, ch, k - 1, false), Counted(before, ch, k, false), cs[k - 1])
    ensures !cs[k - 1].acknowledge && cs[k - 1].packet && cs[k - 1].channel == ch && cs[k - 1].attempts == 0
  {
    assert FragmentOf(cs[k - 1], k - 1, before, ch, length, piece, false);
    if k > 1 { Scaled(1, k - 1, piece); }
    var u := before.unreliable;
    assert u[ch := u[ch] + 1][ch := u[ch] + 1] == u[ch := u[ch] + 1];
  }

  /** Acknowledged packets stay out of outgoingCommands. */
  lemma {:induction false} AcknowledgedElsewhere(q: Queues, cs: seq<Outgoing>)
    requires forall i :: 0 <= i < |cs| ==> cs[i].acknowledge && cs[i].packet
    ensures QueuedAll(q, cs).outgoing == q.outgoing
  {
    if cs != [] { AcknowledgedElsewhere(q, cs[..|cs| - 1]); }
  }

  lemma {:induction false} UnreliableBehind(q: Queues, cs: seq<Outgoing>)
    requires forall i :: 0 <= i < |cs| ==> !cs[i].acknowledge
    ensures QueuedAll(q, cs).outgoing == q.outgoing + cs
  {
    if cs != [] {
      UnreliableBehind(q, cs[..|cs| - 1]);
      assert cs == cs[..|cs| - 1] + [cs[|cs| - 1]];
    }
  }

  /** The next ping, when so many numbers of no channel have been given. */
  function NextPing(peerIssued: nat): Outgoing { PING.(number := peerIssued + 1) }

  /** What follows the last command of a packet that was just queued. */
  lemma {:induction false} PingFollows(q: Queues, cs: seq<Outgoing>, before: Counters, after: Counters, ch: nat, length: nat,
                                       piece: nat, reliable: bool, unsequenced: bool, unreliableFragment: bool, group: nat)
    requires 0 < piece && ch < |before.issued| && ch < |before.unreliable| && before.unreliable[ch] < SPAN
    requires length <= piece ==>
               && |cs| == 1 && WholePacket(cs[0], ch, length) && Given(before, after, cs[0])
               && WholeKind(cs[0], reliable, unsequenced, before.unreliable[ch], group)
    requires length > piece ==>
               CutPacket(cs, before, after, ch, length, piece, reliable || !unreliableFragment || before.unreliable[ch] == SPAN - 1)
    requires !JoinsRun(q.outgoing, NextPing(before.peer))
    ensures after.peer == before.peer
    ensures JoinsRun(QueuedAll(q, cs).outgoing, NextPing(after.peer)) <==>
            unsequenced && !reliable && length <= piece && PingIsZero(after.peer)
  {
    hide QueuedAll;
    if length > piece { assert |cs| > 0 by { CountBounds(length, piece, 0); } }
    if cs[0].acknowledge {
      AcknowledgedElsewhere(q, cs);
    } else {
      UnreliableBehind(q, cs);
      var s := q.outgoing + cs;
      assert s[|s| - 1] == cs[|cs| - 1];
    }
  }

  lemma {:induction false} SendSubmits(w: Sender.World, before: Counters, after: Counters, packet: Delivery.Packet, ch: nat,
                                       cs: seq<Outgoing>)
    requires Sender.Invariant(w) && w.core.counters == before && ch < |w.core.last| && packet.piece > 0
    requires |packet.data| <= packet.piece ==>
               && |cs| == 1 && WholePacket(cs[0], ch, |packet.data|) && cs[0].acknowledge && Given(before, after, cs[0])
               && cs[0].kind == Commands.Kind.SendReliable
    requires |packet.data| > packet.piece ==>
               CutPacket(cs, before, after, ch, |packet.data|, packet.piece, true)
    ensures var e := Sender.Submit(ch, packet, cs);
            Sender.Enabled(w, e) && Sender.Step(w, e).core == Core(QueuedAll(w.core.q, cs), w.core.last, after)
  {
    hide Ok, Bounded, Waiting, Delivery.First;
    Sender.IssuedSizes(w.core.q, w.core.last);
    if |packet.data| > packet.piece {
      assert Delivery.Pieces(packet) == Delivery.PiecesCut(packet);
    }
  }

  /** A command of no channel that is queued, a ping or a request to disconnect: it keeps the peer ready for the passes. */
  method Enqueue(p: Peer, draft: Outgoing, ghost w: Sender.World) returns (ghost e: Sender.Event)
    requires Reflects(p, w) && draft.attempts == 0 && FitsAlone(draft, p.mtu) && draft.kind.Control?
    modifies p`outgoingCommands, p`outgoingSendReliableCommands, p`outgoingDataTotal, p`totalQueued, p.numbering
    ensures e.Local? && e.move.Enqueue? && e.move.c.kind == draft.kind && Sender.Enabled(w, e)
    ensures Reflects(p, Sender.Step(w, e)) && (old(p.Steady()) ==> p.Steady())
  {
    hide Ok, Bounded, Waiting, Queued, Sender.Invariant, Reached, Peer.Sendable, Peer.TimerSet, JoinsRun;
    ReachedIsInvariant(w);
    ghost var q, before := p.State(), p.numbering.Numbers();
    var c := p.SetupOutgoingCommand(draft);
    ControlIsSafe(q, c, before, p.numbering.Numbers());
    e := Sender.Local(Moves.Enqueue(c, p.numbering.Numbers()));
    ReachedOn(w, e);
    ReachedIsInvariant(Sender.Step(w, e));
  }

  /** A command of no channel gets the number that the next ping would have had, and a ping behind it joins nothing. */
  lemma {:induction false} ControlIsSafe(q: Queues, c: Outgoing, before: Counters, after: Counters)
    requires Given(before, after, c) && !c.packet
    ensures JoinsRun(q.outgoing, c) <==> JoinsRun(q.outgoing, NextPing(before.peer))
    ensures !JoinsRun(Queued(q, c).outgoing, NextPing(after.peer))
  {
  }

  /** The head of a list is transmitted, for the first time or again. */
  method Transmit(p: Peer, fromReliable: bool, now: nat, ghost w: Sender.World)
    returns (ghost e: Sender.Event)
    requires Reflects(p, w) && p.TimerSet() && p.roundTripTime > 0
    requires if fromReliable then p.outgoingSendReliableCommands != []
             else p.outgoingCommands != [] && p.outgoingCommands[0].acknowledge
    requires fromReliable && p.Head(true).attempts == 0 ==> Permitted(p.State(), p.Head(true))
    modifies p`sentReliableCommands, p`outgoingCommands, p`outgoingSendReliableCommands, p`channels, p`reliableDataInTransit, p`last,
             p`nextTimeout
    ensures e.Local? && e.move.Transmit? && e.move.fromReliable == fromReliable && e.move.now == now && Sender.Enabled(w, e)
    ensures Reflects(p, Sender.Step(w, e)) && p.TimerSet() && (old(p.Steady()) ==> p.Steady())
  {
    hide Ok, Bounded, Waiting, Sent, Advanced, Permitted, Sender.Invariant, Peer.TimerSet, Reached, AllFit, RunsCarryPackets, JoinsRun;
    ReachedIsInvariant(w);
    ghost var q := p.State();
    var c := p.MoveToSent(fromReliable, now);
    SentIsSafe(q, fromReliable, now, c.timeout, p.mtu, NextPing(p.numbering.peerIssued));
    e := Sender.Local(Moves.Transmit(fromReliable, now, c.timeout));
    ReachedOn(w, e);
    ReachedIsInvariant(Sender.Step(w, e));
  }

  lemma {:induction false} SentIsSafe(q: Queues, fromReliable: bool, now: nat, timeout: nat, mtu: nat, ping: Outgoing)
    requires if fromReliable then q.reliable != [] else q.outgoing != []
    ensures var r := Sent(q, fromReliable, now, timeout);
            && (!JoinsRun(q.outgoing, ping) ==> !JoinsRun(r.outgoing, ping))
            && (AllFit(q, mtu) && RunsCarryPackets(q.outgoing) ==> AllFit(r, mtu) && RunsCarryPackets(r.outgoing))
  {
    hide AllFit, RunsCarryPackets;
    if AllFit(q, mtu) && RunsCarryPackets(q.outgoing) { SendableAfter(q, fromReliable, now, timeout, mtu); }
  }

  /** An acknowledgement the receiver queued for fragment i of packet j reaches the peer, before 2^16 numbers more have
      been sent. */
  method Acknowledge(p: Peer, ch: nat, sequence: nat, ghost j: nat, ghost i: nat, ghost w: Sender.World)
    returns (ghost e: Sender.Event)
    requires Reflects(p, w) && p.TimerSet() && ch < |w.core.last| && (j, i) in w.acks[ch]
    requires j < |w.packets[ch]| && w.core.last[ch] < Delivery.First(w.packets[ch], j) + i + SPAN
    requires sequence == Wire(Delivery.First(w.packets[ch], j) + i)
    modifies p`sentReliableCommands, p`outgoingCommands, p`outgoingSendReliableCommands, p`reliableDataInTransit, p`channels,
             p`nextTimeout
    ensures e.Acknowledge? && e.ch == ch && e.j == j && e.i == i && Sender.Enabled(w, e)
    ensures Reflects(p, Sender.Step(w, e)) && p.TimerSet() && (old(p.Steady()) ==> p.Steady())
  {
    hide Sender.Invariant, Sender.TakenOut, Sender.Found, Reached, Delivery.First, Reflects, Sender.Ample, Peer.TimerSet, Peer.Steady;
    ReflectedIsReached(p, w);
    ghost var place := Take(p, ch, sequence, w);
    e := Sender.Acknowledge(ch, j, i, place);
    ReachedOn(w, e);
    TakenReflects(p, w, place, Sender.Step(w, e));
  }

  /** An acknowledgement of a command of no channel. */
  method AcknowledgePeer(p: Peer, sequence: nat, ghost w: Sender.World) returns (ghost e: Sender.Event)
    requires Reflects(p, w) && p.TimerSet()
    modifies p`sentReliableCommands, p`outgoingCommands, p`outgoingSendReliableCommands, p`reliableDataInTransit, p`channels,
             p`nextTimeout
    ensures e.AcknowledgePeer? && e.sequence == sequence && Sender.Enabled(w, e)
    ensures Reflects(p, Sender.Step(w, e)) && p.TimerSet() && (old(p.Steady()) ==> p.Steady())
  {
    hide Sender.Invariant, Sender.TakenOut, Sender.Found, Reached, Reflects, Sender.Ample, Peer.TimerSet, Peer.Steady;
    ReflectedIsReached(p, w);
    ghost var place := Take(p, PEER_CHANNEL, sequence, w);
    e := Sender.AcknowledgePeer(sequence, place);
    ReachedOn(w, e);
    TakenReflects(p, w, place, Sender.Step(w, e));
  }

  /** The command an acknowledgement is for leaves the queues of the peer. */
  method Take(p: Peer, ch: nat, sequence: nat, ghost w: Sender.World) returns (ghost place: Sender.Option<Place>)
    requires Reflects(p, w) && p.TimerSet()
    modifies p`sentReliableCommands, p`outgoingCommands, p`outgoingSendReliableCommands, p`reliableDataInTransit, p`channels,
             p`nextTimeout
    ensures SendQueues.Bytes(w.core.q.sent) == w.core.q.transit && Sender.Found(w.core.q, place, sequence, ch)
    ensures place.Some? ==> Holds(w.core.q, place.value)
    ensures p.Valid() && p.Present() == w.core.(q := Sender.TakenOut(w.core.q, place))
    ensures p.TimerSet() && (old(p.Steady()) ==> p.Steady()) && p.numbering.Counting(|p.channels|)
  {
    hide Ok, Bounded, Waiting, Sender.Invariant, Peer.TimerSet, Unmatched, Sender.TakenOut, Sender.Found, Takes, Matches, Reached,
         Delivery.First, JoinsRun, AllFit, RunsCarryPackets;
    ReachedIsInvariant(w);
    var removed := p.RemoveSentReliable(sequence, ch);
    place := PlaceOf(w.core.q, p.State(), removed, sequence, ch);
    TakenIsSafe(w.core.q, w.core.last, place, NextPing(p.numbering.peerIssued));
    TakenKeepsSizes(w.core.q, w.core.last, place, w.core.counters);
  }

  lemma {:induction false} TakenKeepsSizes(q: Queues, last: seq<nat>, place: Sender.Option<Place>, counters: Counters)
    requires Ok(q, last) && (place.Some? ==> Holds(q, place.value)) && Bounded(Waiting(q), counters)
    ensures SendQueues.Bytes(q.sent) == q.transit
    ensures |Sender.TakenOut(q, place).inFlight| == |q.inFlight| && Bounded(Waiting(Sender.TakenOut(q, place)), counters)
  {
    hide Ok, Bounded, Waiting;
    Sender.TakenKeeps(q, last, place, counters);
    Sender.IssuedSizes(q, last);
    Sender.IssuedSizes(Sender.TakenOut(q, place), last);
  }

  /** A transmitted command stands in front of those that no ping may follow. */
  lemma {:induction false} TakenIsSafe(q: Queues, last: seq<nat>, place: Sender.Option<Place>, ping: Outgoing)
    requires Ok(q, last) && (place.Some? ==> Holds(q, place.value))
    ensures SendQueues.Bytes(q.sent) == q.transit
    ensures !JoinsRun(q.outgoing, ping) ==> !JoinsRun(Sender.TakenOut(q, place).outgoing, ping)
  {
    hide Keys, Distinct, WindowsAgree, ChannelOk, Shaped, SameNumbers;
    if place.Some? && place.value.InOutgoing? {
      var s, t := q.outgoing, Without(q.outgoing, place.value.k);
      assert t != [] ==> t[|t| - 1] == if place.value.k < |s| - 1 then s[|s| - 1] else s[|s| - 2];
    }
  }

  lemma {:induction false} ReflectedIsReached(p: Peer, w: Sender.World)
    requires Reflects(p, w)
    ensures Reached(w) && Sender.Ample(w)
  {
    hide Reached, Sender.Ample;
  }

  lemma {:induction false} TakenReflects(p: Peer, w: Sender.World, place: Sender.Option<Place>, v: Sender.World)
    requires SendQueues.Bytes(w.core.q.sent) == w.core.q.transit && (place.Some? ==> Holds(w.core.q, place.value))
    requires Reached(v) && v.core == w.core.(q := Sender.TakenOut(w.core.q, place))
    requires p.Valid() && p.Present() == v.core && p.numbering.Counting(|p.channels|)
    ensures Reflects(p, v)
  {
    hide Ok, Bounded, Waiting, Reached, Sender.TakenOut;
    ReachedIsInvariant(v);
  }

  lemma {:induction false} PlaceOf(q: Queues, r: Queues, removed: Option<Outgoing>, sequence: nat, ch: nat)
    returns (place: Sender.Option<Place>)
    requires SendQueues.Bytes(q.sent) == q.transit
    requires match removed
             case None => r == q && Unmatched(q, sequence, ch)
             case Some(c) => Matches(c, sequence, ch) && exists p :: Takes(q, r, p, c)
    ensures place.Some? ==> Holds(q, place.value)
    ensures Sender.Found(q, place, sequence, ch) && r == Sender.TakenOut(q, place)
  {
    hide Unmatched, Removed;
    place := Sender.None;
    if removed.Some? {
      var at :| Takes(q, r, at, removed.value);
      place := Sender.Some(at);
    }
  }

  /** The peer is where moves of its own led from the world w. */
  ghost predicate HasMoved(p: Peer, w: Sender.World)
    reads p, p.numbering
  {
    exists moves :: Reflects(p, Sender.After(w, Sender.Locals(moves)))
  }

  lemma {:induction false} BalancedIsReached(p: Peer, w: Sender.World, a: Account, now: nat)
    requires Reached(w) && Sender.Ample(w) && w.core == a.start.core
    requires p.Steady() && Balanced(a, p.StartOf(now))
    ensures HasMoved(p, w)
  {
    hide Ok, Bounded, Waiting, Sender.After, Sender.Locals, Through, Sender.Run, LooseOf, AcksIn, CommandsIn, Keys;
    var moves :| Through(w.core, moves) == p.Present();
    Sender.MovesRun(w, moves);
    ReachedAfter(w, Sender.Locals(moves));
    ReachedIsInvariant(Sender.After(w, Sender.Locals(moves)));
    assert Reflects(p, Sender.After(w, Sender.Locals(moves)));
  }

  lemma {:induction false} ReflectedAreReached(h: Host, worlds: seq<Sender.World>, now: nat)
    requires |worlds| == |h.peers|
    requires forall i :: 0 <= i < |h.peers| && h.peers[i].active ==> Reflects(h.peers[i], worlds[i])
    ensures forall i :: 0 <= i < |h.peers| && h.peers[i].active ==>
              && Reached(worlds[i]) && Sender.Ample(worlds[i])
              && worlds[i].core == h.peers[i].StartOf(now).core
  {
    hide Ok, Reached, Sender.Ample;
  }

  /** Sending to all peers is, for each of them, a run of moves: whatever the passes, timeouts, drops and pings were. */
  method SendOutgoingCommands(h: Host, now: nat, checkForTimeouts: bool, event: bool, sends: nat, ghost worlds: seq<Sender.World>)
    returns (code: int, datagrams: seq<Shipment>)
    requires h.Apart() && |worlds| == |h.peers|
    requires forall i :: 0 <= i < |h.peers| && h.peers[i].active ==>
               h.peers[i].Steady() && Reflects(h.peers[i], worlds[i])
    modifies h.peers, h.Numberings()
    ensures forall i :: 0 <= i < |h.peers| && h.peers[i].active ==> h.peers[i].Steady()
    ensures forall i :: 0 <= i < |h.peers| && h.peers[i].active ==> HasMoved(h.peers[i], worlds[i])
    ensures code == 0 ==> forall i :: 0 <= i < |h.peers| && h.peers[i].active ==> h.peers[i].Drained()
  {
    hide Ok, Bounded, Waiting, HasMoved, Reached, Sender.Ample, Sender.After, Sender.Locals, Within, Peer.Drained, Peer.Steady,
         Peer.StartOf, EntriesFor, Balanced;
    ghost var accounts;
    ReflectedAreReached(h, worlds, now);
    code, datagrams, accounts := h.SendOutgoingCommands(now, checkForTimeouts, event, sends);
    forall i | 0 <= i < |h.peers| && h.peers[i].active
      ensures HasMoved(h.peers[i], worlds[i])
    {
      BalancedIsReached(h.peers[i], worlds[i], accounts[i], now);
    }
  }
}
