/** A peer's sender and the receivers of its channels together, and how each channel appears in it. */
module Sender {
  import opened Fragmentation
  import opened Windows
  import Receiving
  import opened SendQueues
  import opened Matching
  import opened Packing
  import opened Queueing
  import opened Commands
  import opened Holding
  import opened Moves
  import Delivery

  /** What a peer's sender holds, and for each channel the packets given to it, its receiver at the other end, and the
      acknowledgements ever queued there. */
  datatype World = World(core: Core, packets: seq<seq<Delivery.Packet>>, receivers: seq<Receiving.Receiver>,
                         acks: seq<set<(nat, nat)>>, limit: nat)

  datatype Option<T> = None | Some(value: T)

  /** What happens: a reliable packet is cut into the commands cs and queued; the sender makes a move of its own; an
      acknowledgement of a channel, or of no channel, is taken, for the command at the place found; a copy of a fragment
      arrives. */
  datatype Event =
    | Submit(ch: nat, packet: Delivery.Packet, cs: seq<Outgoing>)
    | Local(move: Move)
    | Acknowledge(ch: nat, j: nat, i: nat, place: Option<Place>)
    | AcknowledgePeer(sequence: nat, place: Option<Place>)
    | Deliver(ch: nat, j: nat, i: nat, full: bool)

  /** A channel of the world, as the protocol of one channel knows it. */
  function Seen(w: World, ch: nat): Delivery.System
    requires ch < |w.core.last| && ch < |w.core.q.inFlight| && ch < |w.packets| && ch < |w.receivers| && ch < |w.acks|
  {
    Delivery.System(w.packets[ch], w.core.last[ch], w.core.q.inFlight[ch], w.receivers[ch], w.acks[ch], w.limit)
  }

  predicate Ample(w: World) {
    Sized(w.core) && |w.core.last| == |w.packets| == |w.receivers| == |w.acks| <= PEER_CHANNEL
  }

  /** The commands of a reliable packet: one for each fragment, with the next numbers of the channel. */
  predicate CutInto(cs: seq<Outgoing>, issued: nat, ch: nat, p: Delivery.Packet) {
    && |cs| == Delivery.Pieces(p)
    && forall i :: 0 <= i < |cs| ==>
         && cs[i].channel == ch && cs[i].acknowledge && cs[i].packet && cs[i].attempts == 0
         && cs[i].number == issued + 1 + i && cs[i].unreliable == 0 && PartOf(cs[i], p, i, issued + 1)
  }

  /** Command c carries part i of packet p, whose first number is `first`. */
  predicate PartOf(c: Outgoing, p: Delivery.Packet, i: nat, first: nat) {
    if Delivery.Pieces(p) == 1 then i == 0 && c.offset == 0 && c.length == |p.data| && c.kind == Kind.SendReliable
    else 0 < p.piece && i * p.piece < |p.data|
         && c.kind == Kind.SendFragment(Wire(first), Delivery.Pieces(p), i, |p.data|)
         && c.offset == PieceAt(|p.data|, p.piece, i).offset && c.length == PieceAt(|p.data|, p.piece, i).length
  }

  ghost predicate Found(q: Queues, place: Option<Place>, sequence: nat, ch: nat) {
    match place
    case None => Unmatched(q, sequence, ch)
    case Some(p) => Holds(q, p) && Matches(At(q, p)[p.k], sequence, ch)
  }

  ghost predicate Enabled(w: World, e: Event) {
    Ample(w) && match e
                case Submit(ch, p, cs) =>
                  && ch < |w.core.last| && ch < |w.core.counters.issued| && ch < |w.core.counters.unreliable|
                  && p.piece > 0 && CutInto(cs, w.core.q.issued[ch], ch, p)
                case Local(move) => Allowed(w.core, move)
                case Acknowledge(ch, j, i, place) =>
                  && ch < |w.core.last| && (j, i) in w.acks[ch] && j < |w.packets[ch]|
                  && w.core.last[ch] < Delivery.First(w.packets[ch], j) + i + SPAN
                  && Found(w.core.q, place, Wire(Delivery.First(w.packets[ch], j) + i), ch)
                case AcknowledgePeer(sequence, place) => Found(w.core.q, place, sequence, PEER_CHANNEL)
                case Deliver(ch, j, i, full) =>
                  ch < |w.core.last| && Delivery.Enabled(Seen(w, ch), Delivery.Deliver(j, i, full))
  }

  function TakenOut(q: Queues, place: Option<Place>): Queues
    requires SendQueues.Bytes(q.sent) == q.transit && (place.Some? ==> Holds(q, place.value))
  {
    if place.Some? then Removed(q, place.value) else q
  }

  ghost function Step(w: World, e: Event): World
    requires Enabled(w, e)
  {
    match e
    case Submit(ch, p, cs) =>
      var x := Core(QueuedAll(w.core.q, cs), w.core.last, Counted(w.core.counters, ch, |cs|, true));
      w.(core := x, packets := w.packets[ch := w.packets[ch] + [p]])
    case Local(move) => w.(core := Moved(w.core, move))
    case Acknowledge(_, _, _, place) => w.(core := w.core.(q := TakenOut(w.core.q, place)))
    case AcknowledgePeer(_, place) => w.(core := w.core.(q := TakenOut(w.core.q, place)))
    case Deliver(ch, j, i, full) =>
      var t := Delivery.Step(Seen(w, ch), Delivery.Deliver(j, i, full));
      w.(receivers := w.receivers[ch := t.receiver], acks := w.acks[ch := t.acks])
  }

  function Initial(channelCount: nat, limit: nat): World {
    var q := Fresh(channelCount);
    World(Core(q, q.issued, Counters(q.issued, 0, q.issued)), seq(channelCount, _ => []),
          seq(channelCount, _ => Receiving.Receiver(0, [], [])), seq(channelCount, _ => {}), limit)
  }

  /** A run: events that are not enabled have no effect. */
  ghost function Run(channelCount: nat, limit: nat, events: seq<Event>): World {
    if events == [] then Initial(channelCount, limit)
    else
      var w := Run(channelCount, limit, events[..|events| - 1]);
      var e := events[|events| - 1];
      if Enabled(w, e) then Step(w, e) else w
  }

  /** What further events make of a world. */
  ghost function After(w: World, events: seq<Event>): World {
    if events == [] then w
    else
      var v := After(w, events[..|events| - 1]);
      var e := events[|events| - 1];
      if Enabled(v, e) then Step(v, e) else v
  }

  lemma {:induction false} RunGoesOn(channelCount: nat, limit: nat, events: seq<Event>, more: seq<Event>)
    ensures After(Run(channelCount, limit, events), more) == Run(channelCount, limit, events + more)
  {
    hide Enabled, Step;
    if more == [] {
      assert events + more == events;
    } else {
      var n := |more| - 1;
      RunGoesOn(channelCount, limit, events, more[..n]);
      assert (events + more)[..|events + more| - 1] == events + more[..n];
    }
  }

  lemma {:induction false} StepLimit(w: World, e: Event)
    requires Enabled(w, e)
    ensures Step(w, e).limit == w.limit
  {
  }

  function Locals(moves: seq<Move>): seq<Event> {
    if moves == [] then [] else Locals(moves[..|moves| - 1]) + [Local(moves[|moves| - 1])]
  }

  /** Moves of the sender are a run of the world that leaves everything else alone. */
  lemma {:induction false} MovesRun(w: World, moves: seq<Move>)
    requires Ample(w)
    ensures After(w, Locals(moves)) == w.(core := Through(w.core, moves)) && |Through(w.core, moves).last| == |w.core.last|
  {
    hide Allowed;
    if moves != [] {
      var before, m := moves[..|moves| - 1], moves[|moves| - 1];
      MovesRun(w, before);
      assert Locals(moves)[..|Locals(moves)| - 1] == Locals(before);
      var y := Through(w.core, before);
      if Allowed(y, m) { AllowedIsSized(y, m); }
    }
  }

  lemma {:induction false} AllowedIsSized(x: Core, m: Move)
    requires Allowed(x, m)
    ensures Sized(x) && |Moved(x, m).last| == |x.last|
  {
  }

  /** The queues are in order, the counters bound what waits, and the numbers given are those of the packets. */
  ghost predicate Invariant(w: World) {
    && Ample(w) && Ok(w.core.q, w.core.last) && Bounded(Waiting(w.core.q), w.core.counters)
    && w.core.counters.issued == w.core.q.issued && |w.core.counters.unreliable| == |w.core.last|
    && forall ch :: 0 <= ch < |w.core.last| ==> w.core.q.issued[ch] + 1 == Delivery.First(w.packets[ch], |w.packets[ch]|)
  }

  /** What an event of the peer is for channel ch. */
  function Image(w: World, e: Event, ch: nat): seq<Delivery.Event> {
    match e
    case Submit(c, p, _) => if c == ch then [Delivery.Queue(p)] else []
    case Local(Transmit(fromReliable, _, _)) =>
      if fromReliable && w.core.q.reliable != [] && w.core.q.reliable[0].attempts == 0 && w.core.q.reliable[0].channel == ch then
        [Delivery.Event.Transmit]
      else []
    case Acknowledge(c, j, i, _) => if c == ch then [Delivery.Acknowledge(j, i)] else []
    case Deliver(c, j, i, full) => if c == ch then [Delivery.Deliver(j, i, full)] else []
    case _ => []
  }

  /** Each event is a step of each channel or leaves it alone. */
  ghost predicate Follows(w: World, v: World, e: Event, ch: nat)
    requires Ample(w) && Ample(v) && ch < |w.core.last| && |v.core.last| == |w.core.last|
  {
    var image := Image(w, e, ch);
    if image == [] then Seen(v, ch) == Seen(w, ch)
    else Delivery.Enabled(Seen(w, ch), image[0]) && Seen(v, ch) == Delivery.Step(Seen(w, ch), image[0])
  }

  // Queueing.

  /** The first k commands of a packet are queued one after the other. */
  lemma {:induction false} SubmitQueues(q: SendQueues.Queues, last: seq<nat>, counters: Counters, cs: seq<Outgoing>, ch: nat,
                                        p: Delivery.Packet, k: nat)
    requires Ok(q, last) && Bounded(Waiting(q), counters) && counters.issued == q.issued && |counters.unreliable| == |last|
    requires ch < |last| <= PEER_CHANNEL && CutInto(cs, q.issued[ch], ch, p) && k <= |cs|
    ensures var r, after := QueuedAll(q, cs[..k]), Counted(counters, ch, k, true);
            && Ok(r, last) && Bounded(Waiting(r), after) && after.issued == r.issued == q.issued[ch := q.issued[ch] + k]
            && r.inFlight == q.inFlight && |after.unreliable| == |last|
  {
    hide Ok, Bounded, Waiting, Given, KeyOf, New;
    IssuedSizes(q, last);
    if k == 0 {
      assert cs[..0] == [];
      NothingQueued(q);
      assert q.issued[ch := q.issued[ch]] == q.issued;
    } else {
      SubmitQueues(q, last, counters, cs, ch, p, k - 1);
      var r, c := QueuedAll(q, cs[..k - 1]), cs[k - 1];
      var before, after := Counted(counters, ch, k - 1, true), Counted(counters, ch, k, true);
      OneMoreQueued(q, cs[..k - 1], c);
      assert cs[..k - 1] + [c] == cs[..k];
      assert Given(before, after, c) by { NextGiven(counters, ch, k - 1, c); }
      NumberIsNew(r, before, after, c);
      QueuedOk(r, last, c);
    }
  }

  lemma {:induction false} IssuedSizes(q: SendQueues.Queues, last: seq<nat>)
    requires Ok(q, last)
    ensures |q.issued| == |q.inFlight| == |last| && SendQueues.Bytes(q.sent) == q.transit
  {
  }

  lemma {:induction false} WorldSizes(w: World)
    requires Invariant(w)
    ensures Ample(w) && SendQueues.Bytes(w.core.q.sent) == w.core.q.transit
    ensures w.core.counters.issued == w.core.q.issued && |w.core.counters.unreliable| == |w.core.last|
    ensures Bounded(Waiting(w.core.q), w.core.counters)
  {
    IssuedSizes(w.core.q, w.core.last);
  }

  lemma {:induction false} NextGiven(counters: Counters, ch: nat, k: nat, c: Outgoing)
    requires ch < |counters.issued| && ch < |counters.unreliable| && c.channel == ch && c.packet && c.acknowledge
    requires c.number == counters.issued[ch] + k + 1 && c.unreliable == 0
    ensures Given(Counted(counters, ch, k, true), Counted(counters, ch, k + 1, true), c)
  {
  }

  /** The event keeps the invariant and is a step of every channel. */
  ghost predicate Kept(w: World, v: World, e: Event) {
    && Ample(w) && Ample(v) && Invariant(v) && |v.core.last| == |w.core.last|
    && forall ch :: 0 <= ch < |w.core.last| ==> Follows(w, v, e, ch)
  }

  lemma {:induction false} SubmitKeeps(w: World, ch: nat, p: Delivery.Packet, cs: seq<Outgoing>)
    requires var e := Submit(ch, p, cs); Invariant(w) && Enabled(w, e)
    ensures var e := Submit(ch, p, cs); Kept(w, Step(w, e), e)
  {
    hide Ok, Bounded, Waiting, CutInto, Delivery.First, Delivery.Pieces;
    var v := Step(w, Submit(ch, p, cs));
    SubmitQueues(w.core.q, w.core.last, w.core.counters, cs, ch, p, |cs|);
    assert Ok(v.core.q, v.core.last) by { assert cs[..|cs|] == cs; }
    OkIsSized(v.core);
    assert cs[..|cs|] == cs;
    PacketAdded(w.packets[ch], p);
    assert |cs| == Delivery.Pieces(p) by { CutSize(cs, w.core.q.issued[ch], ch, p); }
  }

  lemma {:induction false} CutSize(cs: seq<Outgoing>, issued: nat, ch: nat, p: Delivery.Packet)
    requires CutInto(cs, issued, ch, p)
    ensures |cs| == Delivery.Pieces(p)
  {
  }

  lemma {:induction false} PacketAdded(packets: seq<Delivery.Packet>, p: Delivery.Packet)
    ensures var more := packets + [p]; Delivery.First(more, |more|) == Delivery.First(packets, |packets|) + Delivery.Pieces(p)
  {
    hide Delivery.Pieces;
    Delivery.FirstOfExtension(packets, packets + [p], |packets|);
  }

  lemma {:induction false} EnqueueKeeps(w: World, c: Outgoing, after: Counters)
    requires var e := Local(Enqueue(c, after)); Invariant(w) && Enabled(w, e)
    ensures var e := Local(Enqueue(c, after)); Kept(w, Step(w, e), e)
  {
    hide Ok, Bounded, Waiting, New, KeyOf, Delivery.First;
    NumberIsNew(w.core.q, w.core.counters, after, c);
    QueuedOk(w.core.q, w.core.last, c);
  }

  lemma {:induction false} TransmitKeeps(w: World, fromReliable: bool, now: nat, timeout: nat)
    requires var e := Local(Transmit(fromReliable, now, timeout)); Invariant(w) && Enabled(w, e)
    ensures var e := Local(Transmit(fromReliable, now, timeout)); Kept(w, Step(w, e), e)
  {
    hide Ok, Bounded, Waiting, Delivery.First, Delivery.MaySend;
    var v := Step(w, Local(Transmit(fromReliable, now, timeout)));
    var c := if fromReliable then w.core.q.reliable[0] else w.core.q.outgoing[0];
    SentOk(w.core.q, w.core.last, fromReliable, now, timeout);
    HeadIsPlaced(w.core.q, w.core.last, fromReliable);
    OkIsSized(v.core);
    if fromReliable && c.attempts == 0 { UnsentIsIssued(w.core.q, w.core.last); }
  }

  lemma {:induction false} HeadIsPlaced(q: SendQueues.Queues, last: seq<nat>, fromReliable: bool)
    requires Ok(q, last) && (if fromReliable then q.reliable != [] else q.outgoing != [] && q.outgoing[0].acknowledge)
    ensures if fromReliable then q.reliable[0].channel < |last| else q.outgoing[0].channel >= |last|
  {
    assert fromReliable ==> Placed(q.reliable[0], q);
    assert !fromReliable ==> Placed(q.outgoing[0], q);
  }

  lemma {:induction false} UnsentIsIssued(q: SendQueues.Queues, last: seq<nat>)
    requires Ok(q, last) && q.reliable != [] && q.reliable[0].attempts == 0
    ensures var c := q.reliable[0]; c.channel < |last| && c.number == last[c.channel] + 1 <= q.issued[c.channel]
  {
    HeadIsNext(q, last);
    assert ChannelOk(q, last[q.reliable[0].channel], q.reliable[0].channel);
  }

  lemma {:induction false} LeaveKeeps(w: World, n: nat)
    requires Invariant(w) && Enabled(w, Local(Leave(n)))
    ensures Kept(w, Step(w, Local(Leave(n))), Local(Leave(n)))
  {
    hide Ok, Bounded, Waiting, Delivery.First;
    PoppedOk(w.core.q, w.core.last, n);
  }

  lemma {:induction false} ReturnKeeps(w: World, k: nat, p: nat)
    requires Invariant(w) && Enabled(w, Local(Return(k, p)))
    ensures Kept(w, Step(w, Local(Return(k, p))), Local(Return(k, p)))
  {
    hide Ok, Bounded, Waiting, Delivery.First, AllAttempted;
    ReturnedOk(w.core.q, w.core.last, k, p);
    OkIsSized(Step(w, Local(Return(k, p))).core);
  }

  /** What an acknowledgement finds by 16 bits is the number it was made for, and its window forgets that number only. */
  lemma {:induction false} TakesItsNumber(q: SendQueues.Queues, last: seq<nat>, place: Option<Place>, n: nat, ch: nat)
    requires Ok(q, last) && ch < |last| && last[ch] < n + SPAN && Found(q, place, Wire(n), ch)
    ensures SendQueues.Bytes(q.sent) == q.transit
    ensures TakenOut(q, place).inFlight == q.inFlight[ch := Delivery.Acknowledged(q.inFlight[ch], Wire(n))]
  {
    hide AttemptedFirst, Distinct, Keys, Consecutive, Unsent;
    assert ChannelOk(q, last[ch], ch);
    if place == None {
      forall m | m in q.inFlight[ch] ensures Wire(m) != Wire(n) {
        var p := InFlightWaits(q, ch, m);
      }
      assert Delivery.Acknowledged(q.inFlight[ch], Wire(n)) == q.inFlight[ch];
    } else {
      var c := At(q, place.value)[place.value.k];
      InFlightHere(q, last, place.value);
      forall m | m in q.inFlight[ch] && m != c.number ensures Wire(m) != Wire(n) {
        WindowsApart(m, last[ch]);
        WindowsApart(c.number, last[ch]);
        if m < c.number { WireInjective(m, c.number); } else { WireInjective(c.number, m); }
      }
      assert Delivery.Acknowledged(q.inFlight[ch], Wire(n)) == q.inFlight[ch] - {c.number};
    }
  }

  lemma {:induction false} InFlightWaits(q: SendQueues.Queues, ch: nat, m: nat) returns (p: Place)
    requires WindowsAgree(q) && ch < |q.inFlight| && m in q.inFlight[ch]
    ensures Holds(q, p) && At(q, p)[p.k].channel == ch && At(q, p)[p.k].number == m
  {
    if m in Attempted(q.sent, ch) {
      var k :| 0 <= k < |q.sent| && q.sent[k].acknowledge && q.sent[k].attempts > 0
               && q.sent[k].channel == ch && q.sent[k].number == m;
      p := InSent(k);
    } else {
      var k :| 0 <= k < |q.reliable| && q.reliable[k].acknowledge && q.reliable[k].attempts > 0
               && q.reliable[k].channel == ch && q.reliable[k].number == m;
      p := InReliable(k);
    }
  }

  lemma {:induction false} AcknowledgeKeeps(w: World, ch: nat, j: nat, i: nat, place: Option<Place>)
    requires var e := Acknowledge(ch, j, i, place); Invariant(w) && Enabled(w, e)
    ensures var e := Acknowledge(ch, j, i, place); Kept(w, Step(w, e), e)
  {
    hide Ok, Bounded, Waiting, Delivery.First, Unmatched, Delivery.Acknowledged;
    TakesItsNumber(w.core.q, w.core.last, place, Delivery.First(w.packets[ch], j) + i, ch);
    TakenKeeps(w.core.q, w.core.last, place, w.core.counters);
    OkIsSized(Step(w, Acknowledge(ch, j, i, place)).core);
  }

  lemma {:induction false} TakenKeeps(q: SendQueues.Queues, last: seq<nat>, place: Option<Place>, counters: Counters)
    requires Ok(q, last) && (place.Some? ==> Holds(q, place.value)) && Bounded(Waiting(q), counters)
    ensures SendQueues.Bytes(q.sent) == q.transit
    ensures var r := TakenOut(q, place); Ok(r, last) && Bounded(Waiting(r), counters) && r.issued == q.issued
  {
    hide Waiting, Shaped, Distinct, WindowsAgree, AttemptedFirst, ChannelOk;
    if place.Some? { RemovedOk(q, last, place.value); }
  }

  lemma {:induction false} AcknowledgePeerKeeps(w: World, sequence: nat, place: Option<Place>)
    requires var e := AcknowledgePeer(sequence, place); Invariant(w) && Enabled(w, e)
    ensures var e := AcknowledgePeer(sequence, place); Kept(w, Step(w, e), e)
  {
    hide Ok, Bounded, Waiting, Delivery.First, Unmatched;
    TakenKeeps(w.core.q, w.core.last, place, w.core.counters);
    OkIsSized(Step(w, AcknowledgePeer(sequence, place)).core);
  }

  lemma {:induction false} DeliverKeeps(w: World, ch: nat, j: nat, i: nat, full: bool)
    requires var e := Deliver(ch, j, i, full); Invariant(w) && Enabled(w, e)
    ensures var e := Deliver(ch, j, i, full); Kept(w, Step(w, e), e)
  {
    hide Ok, Bounded, Waiting, Delivery.First, Delivery.Enabled, Receiving.Arrive, Delivery.Command;
  }

  /** Every event of the peer is a step of the protocol of each channel, or leaves the channel alone. */
  lemma {:induction false} StepKeeps(w: World, e: Event)
    requires Invariant(w) && Enabled(w, e)
    ensures Kept(w, Step(w, e), e)
  {
    hide Invariant, Enabled, Step, Kept;
    match e
    case Submit(ch, p, cs) => SubmitKeeps(w, ch, p, cs);
    case Local(Enqueue(c, after)) => EnqueueKeeps(w, c, after);
    case Local(Transmit(fromReliable, now, timeout)) => TransmitKeeps(w, fromReliable, now, timeout);
    case Local(Leave(n)) => LeaveKeeps(w, n);
    case Local(Return(k, p)) => ReturnKeeps(w, k, p);
    case Acknowledge(ch, j, i, place) => AcknowledgeKeeps(w, ch, j, i, place);
    case AcknowledgePeer(sequence, place) => AcknowledgePeerKeeps(w, sequence, place);
    case Deliver(ch, j, i, full) => DeliverKeeps(w, ch, j, i, full);
  }

  /** The run of channel ch. */
  ghost function Projected(channelCount: nat, limit: nat, events: seq<Event>, ch: nat): seq<Delivery.Event> {
    if events == [] then []
    else
      var before := events[..|events| - 1];
      var w, e := Run(channelCount, limit, before), events[|events| - 1];
      Projected(channelCount, limit, before, ch) + if Enabled(w, e) then Image(w, e, ch) else []
  }

  /** In every run of the peer each channel goes through a run of its protocol. */
  lemma {:induction false} RunProjects(channelCount: nat, limit: nat, events: seq<Event>, ch: nat)
    requires ch < channelCount <= PEER_CHANNEL
    ensures var w := Run(channelCount, limit, events);
            && Invariant(w) && |w.core.last| == channelCount
            && Seen(w, ch) == Delivery.Run(limit, Projected(channelCount, limit, events, ch))
  {
    if events == [] {
      InitialProjects(channelCount, limit, ch);
    } else {
      hide Invariant, Enabled, Step, Kept, Image, Delivery.Run;
      var before, e := events[..|events| - 1], events[|events| - 1];
      var w, d := Run(channelCount, limit, before), Projected(channelCount, limit, before, ch);
      RunProjects(channelCount, limit, before, ch);
      if Enabled(w, e) {
        StepKeeps(w, e);
        OneMoreEvent(w, Step(w, e), e, ch, limit, d);
      } else {
        assert d + [] == d;
      }
    }
  }

  lemma {:induction false} OneMoreEvent(w: World, v: World, e: Event, ch: nat, limit: nat, d: seq<Delivery.Event>)
    requires Kept(w, v, e) && ch < |w.core.last| && Seen(w, ch) == Delivery.Run(limit, d)
    ensures Invariant(v) && |v.core.last| == |w.core.last| && Seen(v, ch) == Delivery.Run(limit, d + Image(w, e, ch))
  {
    hide Invariant, Image, Delivery.Enabled, Delivery.Step;
    var image := Image(w, e, ch);
    assert Follows(w, v, e, ch);
    OneAtMost(w, e, ch);
    if image == [] {
      assert d + image == d;
    } else {
      assert (d + image)[..|d + image| - 1] == d;
    }
  }

  lemma {:induction false} OneAtMost(w: World, e: Event, ch: nat)
    ensures |Image(w, e, ch)| <= 1
  {
  }

  lemma {:induction false} InitialProjects(channelCount: nat, limit: nat, ch: nat)
    requires ch < channelCount <= PEER_CHANNEL
    ensures var w := Initial(channelCount, limit);
            Invariant(w) && |w.core.last| == channelCount && Seen(w, ch) == Delivery.Initial(limit)
  {
    hide Ok;
    FreshOk(channelCount);
    assert Delivery.First([], 0) == 1;
  }

  lemma {:induction false} AfterKeeps(w: World, events: seq<Event>)
    requires Invariant(w)
    ensures Invariant(After(w, events))
  {
    hide Invariant, Enabled, Step, Kept;
    if events != [] {
      var v, e := After(w, events[..|events| - 1]), events[|events| - 1];
      AfterKeeps(w, events[..|events| - 1]);
      if Enabled(v, e) {
        StepKeeps(v, e);
        KeptIsInvariant(v, Step(v, e), e);
      }
    }
  }

  // What it comes to.

  /** On every channel the packets dispatched are the first ones given to it, whole, once each and in order. */
  lemma {:induction false} DeliveredInOrder(channelCount: nat, limit: nat, events: seq<Event>, ch: nat)
    requires ch < channelCount <= PEER_CHANNEL
    ensures var w := Run(channelCount, limit, events);
            ch < |w.receivers| == |w.packets| && w.receivers[ch].dispatched <= Delivery.Datas(w.packets[ch])
  {
    hide Run, Ok, Bounded;
    RunProjects(channelCount, limit, events, ch);
    Delivery.DeliveredInOrder(limit, Projected(channelCount, limit, events, ch));
  }

  /** A fragment its receiver does not hold still waits in the sender's queues. */
  lemma {:induction false} NothingForgotten(channelCount: nat, limit: nat, events: seq<Event>, ch: nat, j: nat, i: nat)
    requires ch < channelCount <= PEER_CHANNEL
    requires var w := Run(channelCount, limit, events);
             ch < |w.packets| == |w.receivers| && j < |w.packets[ch]| && i < Delivery.Pieces(w.packets[ch][j])
             && !Delivery.Held(w.packets[ch], w.receivers[ch], j, i)
    ensures var w := Run(channelCount, limit, events); (ch, Delivery.First(w.packets[ch], j) + i) in Waiting(w.core.q)
  {
    hide Run, Bounded, Delivery.Held, Delivery.First, Delivery.Pieces, Ok, Waiting;
    var w := Run(channelCount, limit, events);
    RunProjects(channelCount, limit, events, ch);
    Delivery.RunKeeps(limit, Projected(channelCount, limit, events, ch));
    Delivery.FirstGrows(w.packets[ch], j, |w.packets[ch]|);
    var s, n := Seen(w, ch), Delivery.First(w.packets[ch], j) + i;
    assert n <= w.core.q.issued[ch] && Delivery.Exists(s, j, i) && Delivery.NumberOf(s, j, i) == n;
    assert n > w.core.last[ch] || n in w.core.q.inFlight[ch] by { HeldOrInFlight(s, j, i); }
    OpenWaits(w.core.q, w.core.last, ch, n);
  }

  lemma {:induction false} HeldOrInFlight(s: Delivery.System, j: nat, i: nat)
    requires Delivery.Invariant(s) && Delivery.Exists(s, j, i)
    ensures Delivery.Held(s.packets, s.receiver, j, i) || Delivery.NumberOf(s, j, i) > s.sent
            || Delivery.NumberOf(s, j, i) in s.inFlight
  {
    hide Delivery.Held, Delivery.First, Delivery.Pieces, Delivery.Tracks, Delivery.Settled, Delivery.Narrow, Delivery.Near;
  }

  /** A number given and not acknowledged waits in one of the lists. */
  lemma {:induction false} OpenWaits(q: SendQueues.Queues, last: seq<nat>, ch: nat, n: nat)
    requires Ok(q, last) && ch < |last| && ((last[ch] < n <= q.issued[ch]) || n in q.inFlight[ch])
    ensures (ch, n) in Waiting(q)
  {
    hide Keys, Unsent, AttemptedFirst, Shaped, Distinct, Attempted;
    if n in q.inFlight[ch] {
      var p := InFlightWaits(q, ch, n);
      KeyOfMember(At(q, p), At(q, p)[p.k]);
    } else {
      assert ChannelOk(q, last[ch], ch);
      assert Unsent(q.reliable, ch)[n - last[ch] - 1] == n;
      UnsentWaits(q.reliable, ch, n);
    }
  }

  lemma {:induction false} UnsentWaits(s: seq<Outgoing>, ch: nat, n: nat)
    requires n in Unsent(s, ch)
    ensures Keys(s)[(ch, n)] > 0
  {
    if n !in UnsentOf(s[0], ch) { UnsentWaits(s[1..], ch, n); }
  }

  /** When nothing of a channel waits any more, everything given to it has been dispatched. */
  lemma {:induction false} EverythingArrives(channelCount: nat, limit: nat, events: seq<Event>, ch: nat)
    requires ch < channelCount <= PEER_CHANNEL
    requires forall k :: k in Waiting(Run(channelCount, limit, events).core.q) ==> k.0 != ch
    ensures var w := Run(channelCount, limit, events);
            ch < |w.receivers| == |w.packets| && w.receivers[ch].dispatched == Delivery.Datas(w.packets[ch])
  {
    hide Run, Bounded, Waiting, Ok;
    var w := Run(channelCount, limit, events);
    RunProjects(channelCount, limit, events, ch);
    var q := w.core.q;
    IssuedSizes(q, w.core.last);
    forall n | n in q.inFlight[ch] ensures false {
      OpenWaits(q, w.core.last, ch, n);
    }
    LastIsIssued(q, w.core.last, ch);
    if w.core.last[ch] < q.issued[ch] {
      OpenWaits(q, w.core.last, ch, w.core.last[ch] + 1);
    }
    Delivery.NothingIsLost(limit, Projected(channelCount, limit, events, ch));
  }

  lemma {:induction false} LastIsIssued(q: SendQueues.Queues, last: seq<nat>, ch: nat)
    requires Ok(q, last) && ch < |last|
    ensures last[ch] <= q.issued[ch]
  {
    assert ChannelOk(q, last[ch], ch);
  }

  lemma {:induction false} RunSize(channelCount: nat, limit: nat, events: seq<Event>)
    requires channelCount <= PEER_CHANNEL
    ensures |Run(channelCount, limit, events).core.last| == channelCount && Run(channelCount, limit, events).limit == limit
  {
    hide Invariant, Enabled, Step;
    if events != [] {
      var w, e := Run(channelCount, limit, events[..|events| - 1]), events[|events| - 1];
      RunSize(channelCount, limit, events[..|events| - 1]);
      RunIsCarried(channelCount, limit, events[..|events| - 1]);
      if Enabled(w, e) {
        StepKeeps(w, e);
        StepLimit(w, e);
      }
    }
  }

  // What the commands carry.

  /** Command c is a part of a packet of its channel, with the number of that part. */
  ghost predicate IsPart(w: World, c: Outgoing) {
    c.channel < |w.packets| && exists j, i :: IsPartOf(w.packets[c.channel], c, j, i)
  }

  predicate IsPartOf(packets: seq<Delivery.Packet>, c: Outgoing, j: nat, i: nat) {
    && j < |packets| && i < Delivery.Pieces(packets[j]) && c.number == Delivery.First(packets, j) + i
    && PartOf(c, packets[j], i, Delivery.First(packets, j))
  }

  ghost predicate Carried(w: World) {
    forall c :: Carries(w.core.q, c) ==> IsPart(w, c)
  }

  /** The same command, but for when it was sent. */
  predicate SameContent(c: Outgoing, d: Outgoing) {
    && c.channel == d.channel && c.number == d.number && c.packet == d.packet && c.kind == d.kind
    && c.offset == d.offset && c.length == d.length
  }

  lemma {:induction false} SameIsPart(w: World, v: World, c: Outgoing, d: Outgoing)
    requires IsPart(w, c) && SameContent(c, d) && |v.packets| == |w.packets|
    requires forall ch :: 0 <= ch < |w.packets| ==> w.packets[ch] <= v.packets[ch]
    ensures IsPart(v, d)
  {
    hide Delivery.First, Delivery.Pieces;
    var j: nat, i: nat :| IsPartOf(w.packets[c.channel], c, j, i);
    Delivery.FirstOfExtension(w.packets[c.channel], v.packets[c.channel], j);
    assert IsPartOf(v.packets[c.channel], d, j, i);
  }

  /** The commands of the queues, as far as they carry packets to be acknowledged. */
  predicate Carries(q: SendQueues.Queues, c: Outgoing) { c in q.reliable || (c in q.sent && c.packet) }

  lemma {:induction false} TransmitMoves(q: SendQueues.Queues, last: seq<nat>, fromReliable: bool, now: nat, timeout: nat, d: Outgoing)
    requires Ok(q, last) && (if fromReliable then q.reliable != [] else q.outgoing != [] && q.outgoing[0].acknowledge)
    requires Carries(Sent(q, fromReliable, now, timeout), d)
    ensures exists c :: Carries(q, c) && SameContent(c, d)
  {
    hide Keys, Distinct, WindowsAgree, AttemptedFirst, ChannelOk;
    var c := if fromReliable then q.reliable[0] else q.outgoing[0];
    if Carries(q, d) {
      assert SameContent(d, d);
    } else {
      assert d == Transmitted(c, now, timeout) && SameContent(c, d);
    }
  }

  lemma {:induction false} ReturnMoves(q: SendQueues.Queues, k: nat, p: nat, d: Outgoing)
    requires k < |q.sent| && SendQueues.Bytes(q.sent) == q.transit
    requires p <= |if q.sent[k].packet then q.reliable else q.outgoing|
    requires Carries(Returned(q, k, p), d)
    ensures exists c :: Carries(q, c) && SameContent(c, d)
  {
    hide Keys, SendQueues.Bytes, Unsent, Without, Inserted;
    var c := q.sent[k];
    WithoutOne(q.sent, k);
    if c.packet { InsertedOne(q.reliable, p, c.(timeout := c.timeout * 2)); }
    if Carries(q, d) {
      assert SameContent(d, d);
    } else {
      assert Carries(q, c) && SameContent(c, d);
    }
  }

  lemma {:induction false} TakingMoves(q: SendQueues.Queues, place: Option<Place>, d: Outgoing)
    requires SendQueues.Bytes(q.sent) == q.transit && (place.Some? ==> Holds(q, place.value)) && Carries(TakenOut(q, place), d)
    ensures Carries(q, d) && SameContent(d, d)
  {
    hide Keys, SendQueues.Bytes, Unsent;
    if place.Some? { WithoutOne(At(q, place.value), place.value.k); }
  }

  lemma {:induction false} SubmitAdds(q: SendQueues.Queues, cs: seq<Outgoing>)
    requires forall i :: 0 <= i < |cs| ==> cs[i].acknowledge && cs[i].packet
    ensures QueuedAll(q, cs).reliable == q.reliable + cs && QueuedAll(q, cs).sent == q.sent
  {
    if cs != [] {
      SubmitAdds(q, cs[..|cs| - 1]);
      assert cs == cs[..|cs| - 1] + [cs[|cs| - 1]];
    }
  }

  lemma {:induction false} SubmittedIsCarried(w: World, ch: nat, p: Delivery.Packet, cs: seq<Outgoing>)
    requires var e := Submit(ch, p, cs); Invariant(w) && Enabled(w, e) && Carried(w)
    ensures Carried(Step(w, Submit(ch, p, cs)))
  {
    hide Ok, Bounded, Waiting, Delivery.First, Delivery.Pieces, PartOf, IsPart;
    var v := Step(w, Submit(ch, p, cs));
    SubmitAdds(w.core.q, cs);
    forall d | Carries(v.core.q, d) ensures IsPart(v, d) || exists c :: Carries(w.core.q, c) && SameContent(c, d) {
      if d in cs {
        var i :| 0 <= i < |cs| && cs[i] == d;
        PartsOfLast(w.packets[ch], p, cs, w.core.q.issued[ch], ch, i);
        assert IsPart(v, d) by { WitnessedPart(v, d, |w.packets[ch]|, i); }
      } else {
        assert Carries(w.core.q, d) && SameContent(d, d);
      }
    }
    CarriedBy(w, v);
  }

  lemma {:induction false} WitnessedPart(w: World, c: Outgoing, j: nat, i: nat)
    requires c.channel < |w.packets| && IsPartOf(w.packets[c.channel], c, j, i)
    ensures IsPart(w, c)
  {
  }

  lemma {:induction false} PartsOfLast(packets: seq<Delivery.Packet>, p: Delivery.Packet, cs: seq<Outgoing>, issued: nat, ch: nat,
                                       i: nat)
    requires CutInto(cs, issued, ch, p) && issued + 1 == Delivery.First(packets, |packets|) && i < |cs|
    ensures IsPartOf(packets + [p], cs[i], |packets|, i)
  {
    hide Delivery.First, Delivery.Pieces, PartOf;
    Delivery.FirstOfExtension(packets, packets + [p], |packets|);
  }

  lemma {:induction false} CarriedBy(w: World, v: World)
    requires Carried(w) && |v.packets| == |w.packets|
    requires forall ch :: 0 <= ch < |w.packets| ==> w.packets[ch] <= v.packets[ch]
    requires forall d :: Carries(v.core.q, d) ==> IsPart(v, d) || exists c :: Carries(w.core.q, c) && SameContent(c, d)
    ensures Carried(v)
  {
    hide IsPart, SameContent;
    forall d | Carries(v.core.q, d) ensures IsPart(v, d) {
      if !IsPart(v, d) {
        var c :| Carries(w.core.q, c) && SameContent(c, d);
        SameIsPart(w, v, c, d);
      }
    }
  }

  lemma {:induction false} StepIsCarried(w: World, e: Event)
    requires Invariant(w) && Enabled(w, e) && Carried(w)
    ensures Carried(Step(w, e))
  {
    hide Bounded, Waiting, Delivery.First, Delivery.Pieces, IsPart, SameContent, Ok, Given, Delivery.Enabled, AllAttempted,
         Permitted, CutInto;
    if e.Submit? {
      SubmittedIsCarried(w, e.ch, e.packet, e.cs);
      return;
    }
    var v := Step(w, e);
    forall d | Carries(v.core.q, d) ensures exists c :: Carries(w.core.q, c) && SameContent(c, d) {
      SameAs(d);
      match e
      case Local(Transmit(fromReliable, now, timeout)) => TransmitMoves(w.core.q, w.core.last, fromReliable, now, timeout, d);
      case Local(Return(k, p)) => ReturnMoves(w.core.q, k, p, d);
      case Acknowledge(_, _, _, place) => TakingMoves(w.core.q, place, d);
      case AcknowledgePeer(_, place) => TakingMoves(w.core.q, place, d);
      case Submit(_, _, _) => assert false;
      case Local(Enqueue(_, _)) => assert Carries(w.core.q, d);
      case Local(Leave(_)) => assert Carries(w.core.q, d);
      case Deliver(_, _, _, _) => assert Carries(w.core.q, d);
    }
    CarriedBy(w, v);
  }

  lemma {:induction false} SameAs(d: Outgoing)
    ensures SameContent(d, d)
  {
  }

  /** Whatever a run transmits from a channel is a part of a packet given to it: the part with that number. */
  lemma {:induction false} TransmittedIsPart(channelCount: nat, limit: nat, events: seq<Event>, c: Outgoing)
    requires channelCount <= PEER_CHANNEL && Carries(Run(channelCount, limit, events).core.q, c)
    ensures IsPart(Run(channelCount, limit, events), c)
  {
    hide IsPart, Invariant;
    RunIsCarried(channelCount, limit, events);
  }

  lemma {:induction false} RunIsCarried(channelCount: nat, limit: nat, events: seq<Event>)
    requires channelCount <= PEER_CHANNEL
    ensures Invariant(Run(channelCount, limit, events)) && Carried(Run(channelCount, limit, events))
  {
    if events == [] {
      InitialIsInvariant(channelCount, limit);
    } else {
      hide Invariant, Enabled, Step, Carried, Kept;
      var w, e := Run(channelCount, limit, events[..|events| - 1]), events[|events| - 1];
      RunIsCarried(channelCount, limit, events[..|events| - 1]);
      if Enabled(w, e) {
        StepKeeps(w, e);
        assert Invariant(Step(w, e)) by { KeptIsInvariant(w, Step(w, e), e); }
        StepIsCarried(w, e);
      }
    }
  }

  lemma {:induction false} KeptIsInvariant(w: World, v: World, e: Event)
    requires Kept(w, v, e)
    ensures Invariant(v)
  {
    hide Invariant, Follows;
  }

  lemma {:induction false} InitialIsInvariant(channelCount: nat, limit: nat)
    requires channelCount <= PEER_CHANNEL
    ensures Invariant(Initial(channelCount, limit)) && Carried(Initial(channelCount, limit))
  {
    hide Ok;
    FreshOk(channelCount);
    assert Delivery.First([], 0) == 1;
  }

  // What the peer relies on to fill datagrams.

  /** The event queues commands only that fit a datagram, and none that would be dropped along with a packet. */
  predicate Tidy(w: World, e: Event, mtu: nat) {
    match e
    case Submit(_, _, cs) => forall c :: c in cs ==> FitsAlone(c, mtu)
    case Local(Enqueue(c, _)) => FitsAlone(c, mtu) && !JoinsRun(w.core.q.outgoing, c)
    case _ => true
  }

  ghost predicate Sendable(w: World, mtu: nat) { AllFit(w.core.q, mtu) && RunsCarryPackets(w.core.q.outgoing) }

  /** Tidy events keep every list fit to be sent. */
  lemma {:induction false} StepIsSendable(w: World, e: Event, mtu: nat)
    requires Invariant(w) && Enabled(w, e) && Sendable(w, mtu) && Tidy(w, e, mtu)
    ensures Sendable(Step(w, e), mtu)
  {
    hide Bounded, Waiting, Delivery.First, Delivery.Pieces, Ok, Given, Delivery.Enabled, AllAttempted, Permitted, FitsAlone,
         AllFit, RunsCarryPackets, JoinsRun;
    match e
    case Submit(ch, p, cs) => SubmittedIsSendable(w.core.q, cs, mtu);
    case Local(Enqueue(c, _)) => QueuedSendable(w.core.q, c, mtu);
    case Local(Transmit(fromReliable, now, timeout)) => SendableAfter(w.core.q, fromReliable, now, timeout, mtu);
    case Local(Leave(n)) => SendableSuffix(w.core.q, n, mtu);
    case Local(Return(k, p)) => ReturnIsSendable(w, k, p, mtu);
    case Acknowledge(_, _, _, place) => TakenIsSendable(w.core.q, w.core.last, place, mtu);
    case AcknowledgePeer(_, place) => TakenIsSendable(w.core.q, w.core.last, place, mtu);
    case Deliver(_, _, _, _) =>
  }

  lemma {:induction false} SubmittedIsSendable(q: SendQueues.Queues, cs: seq<Outgoing>, mtu: nat)
    requires AllFit(q, mtu) && RunsCarryPackets(q.outgoing) && forall c :: c in cs ==> FitsAlone(c, mtu)
    requires forall i :: 0 <= i < |cs| ==> cs[i].acknowledge && cs[i].packet
    ensures AllFit(QueuedAll(q, cs), mtu) && RunsCarryPackets(QueuedAll(q, cs).outgoing)
  {
    hide AllFit, RunsCarryPackets, FitsAlone;
    if cs != [] {
      var n := |cs| - 1;
      SubmittedIsSendable(q, cs[..n], mtu);
      assert FitsAlone(cs[n], mtu);
      QueuedSendable(QueuedAll(q, cs[..n]), cs[n], mtu);
    }
  }

  lemma {:induction false} ReturnIsSendable(w: World, k: nat, p: nat, mtu: nat)
    requires Invariant(w) && Enabled(w, Local(Return(k, p))) && Sendable(w, mtu)
    ensures Sendable(Step(w, Local(Return(k, p))), mtu)
  {
    hide Keys, Distinct, WindowsAgree, AttemptedFirst, ChannelOk, Bounded, AllAttempted, AllFit, RunsCarryPackets, Delivery.First;
    assert w.core.q.sent[k].acknowledge;
    ReturnedSendable(w.core.q, k, p, mtu);
  }

  lemma {:induction false} TakenIsSendable(q: SendQueues.Queues, last: seq<nat>, place: Option<Place>, mtu: nat)
    requires Ok(q, last) && (place.Some? ==> Holds(q, place.value)) && AllFit(q, mtu) && RunsCarryPackets(q.outgoing)
    requires SendQueues.Bytes(q.sent) == q.transit
    ensures AllFit(TakenOut(q, place), mtu) && RunsCarryPackets(TakenOut(q, place).outgoing)
  {
    hide Ok, AllFit, RunsCarryPackets;
    if place.Some? {
      TakesSendable(q, TakenOut(q, place), place.value, At(q, place.value)[place.value.k], last, mtu);
    }
  }

  /** While every event is tidy, whatever waits can be sent. */
  lemma {:induction false} RunIsSendable(channelCount: nat, limit: nat, events: seq<Event>, mtu: nat)
    requires channelCount <= PEER_CHANNEL
    requires forall k :: 0 <= k < |events| ==> Tidy(Run(channelCount, limit, events[..k]), events[k], mtu)
    ensures Sendable(Run(channelCount, limit, events), mtu)
  {
    if events == [] {
      assert Initial(channelCount, limit).core.q.outgoing == [];
    } else {
      hide Invariant, Enabled, Step, Sendable, Tidy;
      var before, e := events[..|events| - 1], events[|events| - 1];
      var w := Run(channelCount, limit, before);
      forall k | 0 <= k < |before| ensures Tidy(Run(channelCount, limit, before[..k]), before[k], mtu) {
        assert before[..k] == events[..k] && before[k] == events[k];
      }
      RunIsSendable(channelCount, limit, before, mtu);
      RunIsCarried(channelCount, limit, before);
      assert Tidy(w, e, mtu);
      if Enabled(w, e) { StepIsSendable(w, e, mtu); }
    }
  }

  /** A ping, and an unsequenced packet, with the numbers they are given. */
  function PingAs(n: nat): Outgoing { PING.(number := n) }

  const LOOSE := Outgoing(0, 0, 0, false, true, Kind.SendUnsequenced(1), 0, 1, 0, 0, 0, 0)

  ghost function Pings(n: nat): seq<Event> {
    if n == 0 then []
    else Pings(n - 1) + [Local(Enqueue(PingAs(n), Counters([0], n, [0])))]
  }

  lemma {:induction false} PingsCount(limit: nat, n: nat)
    ensures var x := Run(1, limit, Pings(n)).core; x.counters == Counters([0], n, [0]) && |x.last| == 1
    ensures Ample(Run(1, limit, Pings(n)))
  {
    if n > 0 {
      hide Run, Enabled, Step, Ample;
      PingsCount(limit, n - 1);
      PingQueued(Run(1, limit, Pings(n - 1)), n);
      OneMoreStep(1, limit, Pings(n - 1), Local(Enqueue(PingAs(n), Counters([0], n, [0]))));
    }
  }

  lemma {:induction false} PingQueued(w: World, n: nat)
    requires n > 0 && Ample(w) && w.core.counters == Counters([0], n - 1, [0]) && |w.core.last| == 1
    ensures var e := Local(Enqueue(PingAs(n), Counters([0], n, [0])));
            && Enabled(w, e)
            && var v := Step(w, e); Ample(v) && v.core.counters == Counters([0], n, [0]) && |v.core.last| == 1
  {
  }

  /** What is not tidy happens: the 65536th command of no channel carries the number 0, like an unsequenced packet. Queued
      behind one it would be dropped with it, and it has no packet. */
  lemma {:induction false} PingJoinsRun(limit: nat)
    ensures var packet := Local(Enqueue(LOOSE, Counters([0], SPAN - 1, [0])));
            var ping := Local(Enqueue(PingAs(SPAN), Counters([0], SPAN, [0])));
            var w := Run(1, limit, Pings(SPAN - 1) + [packet, ping]);
            var n := |w.core.q.outgoing|;
            && n >= 2 && w.core.q.outgoing[n - 2] == LOOSE && w.core.q.outgoing[n - 1] == PingAs(SPAN)
            && SameNumbers(LOOSE, PingAs(SPAN)) && !RunsCarryPackets(w.core.q.outgoing)
  {
    var packet := Local(Enqueue(LOOSE, Counters([0], SPAN - 1, [0])));
    var ping := Local(Enqueue(PingAs(SPAN), Counters([0], SPAN, [0])));
    PingsCount(limit, SPAN - 1);
    QueuedTwo(limit, Pings(SPAN - 1), packet, ping);
  }

  lemma {:induction false} QueuedTwo(limit: nat, events: seq<Event>, a: Event, b: Event)
    requires Ample(Run(1, limit, events)) && Run(1, limit, events).core.counters == Counters([0], SPAN - 1, [0])
    requires |Run(1, limit, events).core.last| == 1
    requires a == Local(Enqueue(LOOSE, Counters([0], SPAN - 1, [0])))
    requires b == Local(Enqueue(PingAs(SPAN), Counters([0], SPAN, [0])))
    ensures var w := Run(1, limit, events + [a, b]);
            w.core.q.outgoing == Run(1, limit, events).core.q.outgoing + [LOOSE, PingAs(SPAN)]
  {
    var w := Run(1, limit, events);
    assert (events + [a])[..|events|] == events && (events + [a, b])[..|events| + 1] == events + [a];
    assert Enabled(w, a);
    var v := Run(1, limit, events + [a]);
    assert v == Step(w, a);
    assert Enabled(v, b);
  }

  /** Two unsequenced packets queued one after the other are dropped together when the first is throttled. */
  lemma {:induction false} TwoPacketsDropped(limit: nat)
    ensures var e := Local(Enqueue(LOOSE, Counters([0], 0, [0])));
            var s := Run(1, limit, [e, e]).core.q.outgoing;
            s == [LOOSE, LOOSE] && StartsPacket(LOOSE) && RunLength(s) == 2
  {
    var e := Local(Enqueue(LOOSE, Counters([0], 0, [0])));
    var w0 := Run(1, limit, []);
    assert w0 == Initial(1, limit) && w0.core.counters.issued == [0] && w0.core.counters.unreliable == [0];
    OneMoreStep(1, limit, [], e);
    OneMoreStep(1, limit, [e], e);
    assert [] + [e] == [e] && [e] + [e] == [e, e];
    DropsTwoPackets(LOOSE, LOOSE);
  }

  // A permitted command behind one that is held back.

  lemma {:induction false} OneMoreStep(channelCount: nat, limit: nat, events: seq<Event>, e: Event)
    requires Enabled(Run(channelCount, limit, events), e)
    ensures Run(channelCount, limit, events + [e]) == Step(Run(channelCount, limit, events), e)
  {
    hide Enabled, Step;
    assert (events + [e])[..|events|] == events;
  }

  /** The command of a packet that is not cut. */
  function WholeCommand(ch: nat, number: nat, length: nat): Outgoing {
    Outgoing(ch, number, 0, true, true, Kind.SendReliable, 0, length, 0, 0, 0, 0)
  }

  /** Queueing such a packet. */
  lemma {:induction false} SubmitWhole(w: World, ch: nat, p: Delivery.Packet)
    requires Ample(w) && ch < |w.core.last| && ch < |w.core.counters.issued| && ch < |w.core.counters.unreliable|
    requires |p.data| <= p.piece && 0 < p.piece
    ensures var c := WholeCommand(ch, w.core.q.issued[ch] + 1, |p.data|); var e := Submit(ch, p, [c]);
            Enabled(w, e) && Step(w, e).core.q == Queued(w.core.q, c) && Step(w, e).core.last == w.core.last
            && Step(w, e).core.counters == Counted(w.core.counters, ch, 1, true)
  {
    hide QueuedAll, Queued, CutInto;
    var c := WholeCommand(ch, w.core.q.issued[ch] + 1, |p.data|);
    WholeIsCut(ch, w.core.q.issued[ch], p);
    OneMoreQueued(w.core.q, [], c);
    assert [] + [c] == [c];
    NothingQueued(w.core.q);
  }

  lemma {:induction false} WholeIsCut(ch: nat, issued: nat, p: Delivery.Packet)
    requires |p.data| <= p.piece && 0 < p.piece
    ensures CutInto([WholeCommand(ch, issued + 1, |p.data|)], issued, ch, p)
  {
  }

  /** With 1300 bytes in transit and room for 1400, a packet of 200 bytes is held back, and behind it a packet of 50 bytes on
      another channel, which windows and throttle permit: a walk over the list sends neither. */
  lemma {:induction false} PermittedWaits(limit: nat, p: Delivery.Packet, big: Delivery.Packet, small: Delivery.Packet)
    requires |p.data| == 1300 && |big.data| == 200 && |small.data| == 50
    requires p.piece == big.piece == small.piece == 1372
    ensures var first, second, third := WholeCommand(0, 1, 1300), WholeCommand(0, 2, 200), WholeCommand(1, 1, 50);
            var w := Run(2, limit, [Submit(0, p, [first]), Local(Transmit(true, 0, 500)),
                                    Submit(0, big, [second]), Submit(1, small, [third])]);
            && w.core.q.outgoing == [] && w.core.q.reliable == [second, third]
            && Stopped(w.core.q.inFlight, w.core.q.transit, 1400, second) && !Stopped(w.core.q.inFlight, w.core.q.transit, 1400, third)
            && Reach(w.core.q.reliable, w.core.q.inFlight, w.core.q.transit, 1400) == 0
  {
    hide Run, Enabled, Step, SendQueues.Bytes, Ample, CutInto, Counted, Stopped, Reach, Queued;
    var first, second, third := WholeCommand(0, 1, 1300), WholeCommand(0, 2, 200), WholeCommand(1, 1, 50);
    var a, b, c, d := Submit(0, p, [first]), Local(Transmit(true, 0, 500)), Submit(0, big, [second]), Submit(1, small, [third]);
    OneInTransit(limit, p);
    var w2 := Run(2, limit, [a, b]);
    SubmitWhole(w2, 0, big);
    OneMoreStep(2, limit, [a, b], c);
    assert [a, b] + [c] == [a, b, c] && [a, b, c] + [d] == [a, b, c, d];
    var w3 := Run(2, limit, [a, b, c]);
    RunIsCarried(2, limit, [a, b, c]);
    WorldSizes(w3);
    BehindIt(w2.core.q);
    SubmitWhole(w3, 1, small);
    OneMoreStep(2, limit, [a, b, c], d);
  }

  lemma {:induction false} BehindIt(q: SendQueues.Queues)
    requires q.outgoing == [] && q.reliable == [] && q.transit == 1300 && q.issued == [1, 0] && q.inFlight == [{1}, {}]
    ensures var second, third := WholeCommand(0, 2, 200), WholeCommand(1, 1, 50);
            var r := Queued(Queued(q, second), third);
            && Queued(q, second).issued == [2, 0]
            && r.outgoing == [] && r.reliable == [second, third]
            && Stopped(r.inFlight, r.transit, 1400, second) && !Stopped(r.inFlight, r.transit, 1400, third)
            && Reach(r.reliable, r.inFlight, r.transit, 1400) == 0
  {
    hide Delivery.MaySend;
    NothingOpened({1}, 2);
    NothingOpened({}, 1);
    assert Queued(q, WholeCommand(0, 2, 200)).issued == [2, 0];
  }

  lemma {:induction false} OneInTransit(limit: nat, p: Delivery.Packet)
    requires |p.data| == 1300 && p.piece == 1372
    ensures var w := Run(2, limit, [Submit(0, p, [WholeCommand(0, 1, 1300)]), Local(Transmit(true, 0, 500))]);
            && Ample(w) && w.core.q.outgoing == [] && w.core.q.reliable == [] && w.core.q.transit == 1300
            && |w.core.last| == 2 && |w.core.counters.issued| == |w.core.counters.unreliable| == 2
            && w.core.q.issued == [1, 0] && w.core.q.inFlight == [{1}, {}]
  {
    hide Run, CutInto, Enabled, Step;
    var a, b := Submit(0, p, [WholeCommand(0, 1, 1300)]), Local(Transmit(true, 0, 500));
    OneQueued(limit, p);
    FirstGoes(Run(2, limit, [a]));
    OneMoreStep(2, limit, [a], b);
    assert [a] + [b] == [a, b];
    RunIsCarried(2, limit, [a, b]);
    WorldSizes(Run(2, limit, [a, b]));
  }

  /** What is queued after the first packet. */
  ghost predicate FirstQueued(w: World) {
    && Ample(w) && w.core.q == Queued(Initial(2, w.limit).core.q, WholeCommand(0, 1, 1300)) && |w.core.last| == 2
    && |w.core.counters.issued| == |w.core.counters.unreliable| == 2
  }

  lemma {:induction false} OneQueued(limit: nat, p: Delivery.Packet)
    requires |p.data| == 1300 && p.piece == 1372
    ensures FirstQueued(Run(2, limit, [Submit(0, p, [WholeCommand(0, 1, 1300)])]))
  {
    hide CutInto, Enabled;
    var a := Submit(0, p, [WholeCommand(0, 1, 1300)]);
    var w0 := Run(2, limit, []);
    assert w0 == Initial(2, limit);
    SubmitWhole(w0, 0, p);
    OneMoreStep(2, limit, [], a);
    assert [] + [a] == [a];
    RunIsCarried(2, limit, [a]);
    WorldSizes(Run(2, limit, [a]));
  }

  lemma {:induction false} FirstGoes(w: World)
    requires FirstQueued(w)
    ensures var e := Local(Transmit(true, 0, 500));
            && Enabled(w, e)
            && var v := Step(w, e);
               && v.core.q.outgoing == [] && v.core.q.reliable == [] && v.core.q.transit == 1300
               && |v.core.last| == 2 && |v.core.counters.issued| == |v.core.counters.unreliable| == 2
               && v.core.q.issued == [1, 0] && v.core.q.inFlight == [{1}, {}]
  {
    hide Delivery.MaySend;
    NothingOpened({}, 1);
    var q, first := w.core.q, WholeCommand(0, 1, 1300);
    assert q.reliable == [first] && q.outgoing == [] && q.issued == [1, 0] && q.inFlight == [{}, {}];
    assert SendQueues.Bytes([]) == 0 && q.sent == [];
    var r := Sent(q, true, 0, 500);
    assert r.reliable == [] && |r.inFlight| == 2 && r.inFlight[0] == {1} && r.inFlight[1] == {};
  }

  lemma {:induction false} NothingOpened(inFlight: set<nat>, n: nat)
    requires n % WINDOW != 0
    ensures Delivery.MaySend(inFlight, n)
  {
  }
}
