/** The 16-bit receiver carries out the deliveries of the end-to-end model. */
module EndToEnd {
  import opened Fragmentation
  import opened Windows
  import opened Receiving
  import opened ReceiveChannel
  import opened Delivery
  import opened Acceptance

  /** Queued packets of an honest sender lie ahead of the base, less than 2^16 away, and do not overlap. */
  lemma {:induction false} QueueIsOrderly(s: System)
    requires Invariant(s)
    ensures Orderly(s.receiver)
  {
    var r := s.receiver;
    forall a | 0 <= a < |r.queue| ensures r.base < r.queue[a].number < r.base + SPAN && Shape(r.queue[a]) {
      var j := Home(s, a);
      QueuedIsNear(s, a, j);
    }
    forall a, b | 0 <= a < b < |r.queue| ensures r.queue[a].number + Span(r.queue[a]) <= r.queue[b].number {
      var j := Home(s, a);
      var l := Home(s, b);
      Apart(s, r.queue[a], j, l);
    }
  }

  /** The packet a queued command belongs to. */
  lemma {:induction false} Home(s: System, a: nat) returns (j: nat)
    requires Invariant(s) && a < |s.receiver.queue|
    ensures |s.receiver.dispatched| <= j < |s.packets| && Match(s.packets, s.receiver.queue[a], j, s.sent)
  {
    assert Known(s.packets, s.receiver.queue[a], |s.receiver.dispatched|, s.sent);
    j :| |s.receiver.dispatched| <= j < |s.packets| && Match(s.packets, s.receiver.queue[a], j, s.sent);
  }

  lemma {:induction false} QueuedIsNear(s: System, a: nat, j: nat)
    requires Invariant(s) && a < |s.receiver.queue| && |s.receiver.dispatched| <= j < |s.packets|
    requires Match(s.packets, s.receiver.queue[a], j, s.sent)
    ensures var x := s.receiver.queue[a]; s.receiver.base < x.number < s.receiver.base + SPAN && Shape(x)
  {
    StartsAhead(s.packets, s.receiver, s.sent, j);
    WindowsApart(s.receiver.queue[a].number, s.sent);
    WindowsApart(s.receiver.base, s.receiver.queue[a].number);
  }

  lemma {:induction false} Apart(s: System, x: Incoming, j: nat, l: nat)
    requires j < |s.packets| && l < |s.packets| && Match(s.packets, x, j, s.sent)
    requires First(s.packets, j) != First(s.packets, l)
    ensures Span(x) == Pieces(s.packets[j])
    ensures if First(s.packets, j) < First(s.packets, l) then x.number + Span(x) <= First(s.packets, l)
            else First(s.packets, l) + Pieces(s.packets[l]) <= x.number
  {
    if j < l { FirstGrows(s.packets, j, l); }
    if l < j { FirstGrows(s.packets, l, j); }
  }

  /** What is delivered never overlaps what is queued. */
  lemma {:induction false} DeliveryIsClear(s: System, j: nat, i: nat, full: bool)
    requires Invariant(s) && Enabled(s, Deliver(j, i, full))
    ensures Clear(s.receiver, Resolve(s.receiver.base, Wire(First(s.packets, j))), Pieces(s.packets[j]))
  {
    hide Fits, Sound, Match, Settled, Orderly, Resolve, TooFar, Tracks;
    if j < |s.receiver.dispatched| {
      BehindIsClear(s, j, i, full);
    } else {
      AheadFits(s, j, i, full);
    }
  }

  lemma {:induction false} BehindIsClear(s: System, j: nat, i: nat, full: bool)
    requires Invariant(s) && Enabled(s, Deliver(j, i, full)) && j < |s.receiver.dispatched|
    ensures Clear(s.receiver, Resolve(s.receiver.base, Wire(First(s.packets, j))), Pieces(s.packets[j]))
  {
    hide Sound, Match, Settled, Resolve, TooFar, Tracks;
    BaseOf(s);
    QueueIsOrderly(s);
    FirstGrows(s.packets, j, |s.receiver.dispatched|);
    BehindIsTooFar(s.receiver.base, First(s.packets, j));
  }

  lemma {:induction false} AheadFits(s: System, j: nat, i: nat, full: bool)
    requires Invariant(s) && Enabled(s, Deliver(j, i, full)) && |s.receiver.dispatched| <= j
    ensures Resolve(s.receiver.base, Wire(First(s.packets, j))) == First(s.packets, j)
    ensures Fits(s.receiver.queue, First(s.packets, j), Pieces(s.packets[j]))
  {
    hide Sound, Match, Settled, Resolve, First, Pieces, Narrow;
    var r, n := s.receiver, First(s.packets, j);
    StartsAhead(s.packets, r, s.sent, j);
    WindowsApart(n, s.sent);
    AheadIsSeen(r.base, n);
    forall a | 0 <= a < |r.queue| && r.queue[a].number != n
      ensures r.queue[a].number + Span(r.queue[a]) <= n || n + Pieces(s.packets[j]) <= r.queue[a].number
    {
      var l := Home(s, a);
      NumberOfMatch(s.packets, r.queue[a], l, s.sent);
      Apart(s, r.queue[a], l, j);
    }
  }

  lemma {:induction false} NumberOfMatch(packets: seq<Packet>, x: Incoming, l: nat, sent: nat)
    requires l < |packets| && Match(packets, x, l, sent)
    ensures x.number == First(packets, l)
  {
  }

  /** The receive loop of a connected peer, given one reliable command that the network of the model can deliver:
      it takes the model's step, and queues an acknowledgement exactly when the model does. */
  method HandleCommand(channel: Channel, m: Message, ghost s: System, ghost j: nat, ghost i: nat)
    returns (ghost acknowledged: bool)
    requires channel.Valid() && channel.State() == s.receiver && channel.maximumPacketSize == s.limit
    requires Invariant(s) && Exists(s, j, i) && m == OnWire(Command(s.packets, j, i))
    requires Enabled(s, Deliver(j, i, channel.totalWaitingData >= channel.maximumWaitingData))
    modifies channel
    ensures channel.Valid()
    ensures channel.acknowledgements == old(channel.acknowledgements) + if acknowledged then [m.number] else []
    ensures var t := Step(s, Deliver(j, i, old(channel.totalWaitingData) >= channel.maximumWaitingData));
            channel.State() == t.receiver && t.acks == s.acks + if acknowledged then {(j, i)} else {}
    ensures Answered(s, j, i, old(channel.totalWaitingData) >= channel.maximumWaitingData, channel.State(), acknowledged)
  {
    hide Resolve, First, Pieces, Invariant, Arrive, Acknowledges, Clear, Answered;
    ghost var full := channel.totalWaitingData >= channel.maximumWaitingData;
    AnsweredExactly(s, j, i, full);
    DeliveryIsClear(s, j, i, full);
    var code: int;
    if m.Whole? {
      code := channel.HandleSendReliable(m);
    } else {
      code := channel.HandleSendFragment(m);
    }
    acknowledged := code == 0 && Acknowledges(channel.base, Resolve(channel.base, m.number));
    if code == 0 {
      channel.QueueAcknowledgement(m.number);
    }
  }
}
