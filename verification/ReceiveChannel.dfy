/** The receiving side of a reliable channel as the source keeps it: 16-bit numbers in a list. */
module ReceiveChannel {
  import opened Carryless
  import opened Fragmentation
  import opened Windows
  import opened Receiving

  /** The commands of a channel with the numbers they stand for. */
  function Lifted(base: nat, commands: seq<Incoming>): (queue: seq<Incoming>)
    ensures |queue| == |commands|
    ensures forall a :: 0 <= a < |queue| ==> queue[a] == Lift(base, commands[a])
  {
    if commands == [] then [] else [Lift(base, commands[0])] + Lifted(base, commands[1..])
  }

  function Lift(base: nat, x: Incoming): Incoming { x.(number := Resolve(base, x.number)) }

  predicate Shape(x: Incoming) {
    if x.count == 0 then x.remaining == 0 else |x.arrived| == x.count && x.remaining == Missing(x.arrived)
  }

  /** Queued numbers lie ahead of the base and do not overlap. */
  ghost predicate Orderly(r: Receiver) {
    && (forall a :: 0 <= a < |r.queue| ==> r.base < r.queue[a].number < r.base + SPAN && Shape(r.queue[a]))
    && forall a, b :: 0 <= a < b < |r.queue| ==> r.queue[a].number + Span(r.queue[a]) <= r.queue[b].number
  }

  /** A packet of `span` numbers from n on overlaps none in the queue, except itself. */
  ghost predicate Fits(queue: seq<Incoming>, n: nat, span: nat) {
    forall a :: 0 <= a < |queue| ==>
      queue[a].number == n || queue[a].number + Span(queue[a]) <= n || n + span <= queue[a].number
  }

  /** Nothing in the queue overlaps the packet, unless it is dropped anyway. */
  ghost predicate Clear(r: Receiver, n: nat, span: nat) { TooFar(r.base, n) || Fits(r.queue, n, span) }

  lemma {:induction false} OrderlyTail(r: Receiver)
    requires Orderly(r) && r.queue != [] && Dispatchable(r)
    ensures Orderly(Receiver(r.base + Span(r.queue[0]), r.queue[1..], r.dispatched + [r.queue[0].data]))
  {
  }

  /** The numbers of queued commands do not depend on the base they are resolved from. */
  lemma {:induction false} LiftedAgain(base: nat, later: nat, commands: seq<Incoming>)
    requires base <= later
    requires forall a :: 0 <= a < |commands| ==> commands[a].number < SPAN
    requires forall a :: 0 <= a < |commands| ==> later < Resolve(base, commands[a].number)
    ensures Lifted(base, commands) == Lifted(later, commands)
  {
    forall a | 0 <= a < |commands| ensures Lift(base, commands[a]) == Lift(later, commands[a]) {
      AheadResolves(base, commands[a].number);
      ResolveRecognises(later, Resolve(base, commands[a].number));
    }
  }

  lemma {:induction false} NextOnWire(base: nat, n: nat)
    requires base < n < base + SPAN
    ensures Wire(n) == (Wire(base) + 1) % SPAN <==> n == base + 1
  {
    if n != base + 1 { WireInjective(base + 1, n); }
    WireSum(base, 1);
  }

  lemma {:induction false} WireSum(n: nat, m: nat)
    ensures (Wire(n) + m) % SPAN == Wire(n + m)
  {
  }

  /** The backwards search of the receive handlers: `k` is the place after the last command with a smaller
      number, or the command with this number is at k - 1. */
  method Search(commands: seq<Incoming>, incomingReliableSequenceNumber: nat, number: nat, ghost base: nat)
    returns (k: nat, found: bool)
    requires incomingReliableSequenceNumber == Wire(base) && number < SPAN
    requires forall a :: 0 <= a < |commands| ==> commands[a].number < SPAN
    ensures k <= |commands| && (k == 0 ==> !found)
    ensures forall a :: k <= a < |commands| ==> Resolve(base, commands[a].number) > Resolve(base, number)
    ensures k > 0 && found ==> commands[k - 1].number == number
    ensures k > 0 && !found ==> Resolve(base, commands[k - 1].number) < Resolve(base, number)
  {
    hide Resolve, Wire;
    k, found := |commands|, false;
    while k > 0
      invariant k <= |commands| && !found
      invariant forall a :: k <= a < |commands| ==> Resolve(base, commands[a].number) > Resolve(base, number)
    {
      var command := commands[k - 1];
      WireOrder(base, command.number, number);
      if number >= incomingReliableSequenceNumber {
        if command.number < incomingReliableSequenceNumber {
          k := k - 1;
          continue;
        }
      } else if command.number >= incomingReliableSequenceNumber {
        break;
      }
      if command.number <= number {
        found := command.number == number;
        break;
      }
      k := k - 1;
    }
  }

  class Channel {
    var incomingReliableSequenceNumber: nat
    var incomingReliableCommands: seq<Incoming>
    var dispatchedCommands: seq<seq<Byte>>
    var acknowledgements: seq<nat>
    var totalWaitingData: nat
    const maximumWaitingData: nat
    const maximumPacketSize: nat

    /** The unbounded number behind the 16-bit one. */
    ghost var base: nat

    ghost function State(): Receiver
      reads this
    {
      Receiver(base, Lifted(base, incomingReliableCommands), dispatchedCommands)
    }

    ghost predicate Numbered()
      reads this
    {
      && incomingReliableSequenceNumber == Wire(base)
      && forall a :: 0 <= a < |incomingReliableCommands| ==> incomingReliableCommands[a].number < SPAN
    }

    ghost predicate Valid()
      reads this
    {
      Numbered() && Orderly(State()) && (State().queue != [] ==> !Dispatchable(State()))
    }

    constructor (maximumWaitingData: nat, maximumPacketSize: nat)
      ensures Valid() && State() == Receiver(0, [], []) && acknowledgements == []
    {
      incomingReliableSequenceNumber, incomingReliableCommands, dispatchedCommands := 0, [], [];
      acknowledgements, totalWaitingData, base := [], 0, 0;
      this.maximumWaitingData, this.maximumPacketSize := maximumWaitingData, maximumPacketSize;
    }

    /** `enet_peer_dispatch_incoming_reliable_commands`: the loop finds how far the queue can be dispatched and
        advances the number; then that run moves to the dispatched commands. */
    method DispatchIncomingReliable()
      requires Numbered() && Orderly(State())
      modifies this`incomingReliableSequenceNumber, this`incomingReliableCommands, this`dispatchedCommands, this`base
      ensures Valid() && State() == Dispatch(old(State()))
    {
      hide Dispatch, Dispatchable, Resolve, Lifted, Orderly, Wire, Scanned, Payloads;
      ghost var r, now := State(), State();
      var current: nat := 0;
      ScanStarts(r, incomingReliableCommands);
      while current < |incomingReliableCommands|
        invariant current <= |incomingReliableCommands| && Scanned(r, now, incomingReliableCommands, current)
        invariant incomingReliableSequenceNumber == Wire(now.base)
        invariant base == r.base && dispatchedCommands == r.dispatched
        invariant incomingReliableCommands == old(incomingReliableCommands)
      {
        var command := incomingReliableCommands[current];
        HeadOnWire(r, now, incomingReliableCommands, current);
        if command.remaining > 0 || command.number != (incomingReliableSequenceNumber + 1) % SPAN {
          break;
        }
        incomingReliableSequenceNumber := command.number;
        if command.count > 0 {
          incomingReliableSequenceNumber := (incomingReliableSequenceNumber + command.count - 1) % SPAN;
        }
        now := ScanStep(r, now, incomingReliableCommands, current);
        current := current + 1;
      }
      ScanEnds(r, now, incomingReliableCommands, current);
      base := now.base;
      if current == 0 {
        return;
      }
      dispatchedCommands := dispatchedCommands + Payloads(incomingReliableCommands[..current]);
      incomingReliableCommands := incomingReliableCommands[current..];
    }

    /** `enet_peer_queue_incoming_command` for reliable commands of a connected peer. */
    method QueueIncomingCommand(number: nat, fragmentCount: nat, data: seq<Byte>) returns (result: Queued)
      requires Valid() && number < SPAN && Clear(State(), Resolve(base, number), Spans(fragmentCount))
      modifies this`incomingReliableSequenceNumber, this`incomingReliableCommands, this`dispatchedCommands,
               this`totalWaitingData, this`base
      ensures Valid()
      ensures var n, r := Resolve(old(base), number), old(State());
              if Unwanted(r, n) || old(totalWaitingData) >= maximumWaitingData then
                && unchanged(this) && !result.Stored?
                && (result.Dummy? <==> Unwanted(r, n) && fragmentCount == 0)
              else
                && var next := r.(queue := Place(r.queue, Started(n, fragmentCount, data)));
                && State() == Dispatch(next)
                && result.Stored? && totalWaitingData == old(totalWaitingData) + |data|
                && (fragmentCount > 0 ==> State() == next && Located(r.queue, n, result.at, false))
    {
      hide Resolve, Lifted, Orderly, Wire, Place, Dispatch, Find, Fits;
      ghost var n, r := Resolve(base, number), State();
      var reliableWindow := number / WINDOW + if number < incomingReliableSequenceNumber then WINDOWS else 0;
      var currentWindow := incomingReliableSequenceNumber / WINDOW;
      AheadResolves(base, number);
      if reliableWindow < currentWindow || reliableWindow >= currentWindow + FREE_WINDOWS - 1
         || number == incomingReliableSequenceNumber {
        return if fragmentCount > 0 then Failed else Dummy;
      }
      var k, found := Search(incomingReliableCommands, incomingReliableSequenceNumber, number, base);
      SearchLocates(r, incomingReliableCommands, number, k, found);
      if found {
        return if fragmentCount > 0 then Failed else Dummy;
      }
      if totalWaitingData >= maximumWaitingData {
        return Failed;
      }
      totalWaitingData := totalWaitingData + |data|;
      var command := Started(number, fragmentCount, data);
      InsertLifts(r, incomingReliableCommands, command, k);
      InsertStaysOrderly(r, Lift(base, command), k);
      if fragmentCount > 0 { InsertSettles(r, Lift(base, command), k); }
      incomingReliableCommands := incomingReliableCommands[..k] + [command] + incomingReliableCommands[k..];
      DispatchIncomingReliable();
      result := Stored(k);
    }

    /** `enet_protocol_handle_send_reliable`, once the command has been read: -1 stops the datagram. */
    method HandleSendReliable(m: Message) returns (code: int)
      requires Valid() && m.Whole? && m.number < SPAN && Clear(State(), Resolve(base, m.number), 1)
      modifies this`incomingReliableSequenceNumber, this`incomingReliableCommands, this`dispatchedCommands,
               this`totalWaitingData, this`base
      ensures Valid() && Answers(code, old(State()), State(), Resolved(old(base), m), maximumPacketSize,
                                 old(totalWaitingData) >= maximumWaitingData)
    {
      hide Resolve, Lifted, Orderly, Wire, Place, Dispatch, Find, Fits;
      if |m.data| > maximumPacketSize {
        return -1;
      }
      var result := QueueIncomingCommand(m.number, 0, m.data);
      code := if result == Failed then -1 else 0;
    }

    /** `enet_protocol_handle_send_fragment`. */
    method HandleSendFragment(m: Message) returns (code: int)
      requires Valid() && m.Piece? && m.start < SPAN && Clear(State(), Resolve(base, m.start), Spans(m.count))
      modifies this`incomingReliableSequenceNumber, this`incomingReliableCommands, this`dispatchedCommands,
               this`totalWaitingData, this`base
      ensures Valid() && Answers(code, old(State()), State(), Resolved(old(base), m), maximumPacketSize,
                                 old(totalWaitingData) >= maximumWaitingData)
    {
      hide Resolve, Lifted, Orderly, Wire, Place, Dispatch, Find, Fits, Marked;
      ghost var n, r := Resolve(base, m.start), State();
      if |m.data| == 0 || |m.data| > maximumPacketSize {
        return -1;
      }
      var startWindow := m.start / WINDOW + if m.start < incomingReliableSequenceNumber then WINDOWS else 0;
      var currentWindow := incomingReliableSequenceNumber / WINDOW;
      AheadResolves(base, m.start);
      if startWindow < currentWindow || startWindow >= currentWindow + FREE_WINDOWS - 1 {
        return 0;
      }
      if m.count > MAXIMUM_FRAGMENT_COUNT || m.index >= m.count || m.total > maximumPacketSize || m.total < m.count
         || m.offset >= m.total || |m.data| > m.total - m.offset {
        return -1;
      }
      var k, found := Search(incomingReliableCommands, incomingReliableSequenceNumber, m.start, base);
      SearchLocates(r, incomingReliableCommands, m.start, k, found);
      SameMarks(base, m);
      var at: nat;
      if found {
        at := k - 1;
        var command := incomingReliableCommands[at];
        if command.count == 0 || m.total != |command.data| || m.count != command.count {
          return -1;
        }
      } else {
        var result := QueueIncomingCommand(m.start, m.count, Blank(m.total));
        if !result.Stored? {
          return -1;
        }
        at := result.at;
        PlacedThenMarked(r, Started(n, m.count, Blank(m.total)), m, at);
      }
      MarkFragment(at, m);
      code := 0;
    }

    /** The end of the fragment handler: a fragment seen for the first time is counted and copied, and the last
        one lets the queue be dispatched. The source also clamps the length to the packet, which the checks
        before have made unnecessary. */
    method MarkFragment(at: nat, m: Message)
      requires Valid() && m.Piece? && at < |incomingReliableCommands|
      requires m.index < m.count == incomingReliableCommands[at].count
      requires m.offset + |m.data| <= m.total == |incomingReliableCommands[at].data|
      modifies this`incomingReliableSequenceNumber, this`incomingReliableCommands, this`dispatchedCommands, this`base
      ensures Valid()
      ensures State() == Dispatch(old(State()).(queue := old(State()).queue[at := Marked(old(State()).queue[at], m)]))
    {
      hide Lifted, Orderly, Dispatch, Shape, Resolve;
      var command := incomingReliableCommands[at];
      ghost var r := State();
      ghost var x := r.queue[at];
      ShapeAt(r, at);
      MarkedShape(x, m);
      UpdateStaysOrderly(r, at, Marked(x, m));
      if !command.arrived[m.index] {
        command := command.(remaining := command.remaining - 1, arrived := command.arrived[m.index := true],
                            data := Put(command.data, m.offset, m.data));
        LiftedUpdate(base, incomingReliableCommands, at, command);
        assert Lift(base, command) == Marked(x, m);
        incomingReliableCommands := incomingReliableCommands[at := command];
        if command.remaining == 0 {
          DispatchIncomingReliable();
        } else {
          DispatchEnds(State());
        }
      } else {
        assert r.queue[at := x] == r.queue;
        DispatchEnds(r);
      }
    }

    /** `enet_peer_queue_acknowledgement`, called with the number as received, after the command was handled. */
    method QueueAcknowledgement(number: nat)
      requires Valid() && number < SPAN
      modifies this`acknowledgements
      ensures acknowledgements ==
              if Acknowledges(base, Resolve(base, number)) then old(acknowledgements) + [number]
              else old(acknowledgements)
    {
      var reliableWindow := number / WINDOW + if number < incomingReliableSequenceNumber then WINDOWS else 0;
      var currentWindow := incomingReliableSequenceNumber / WINDOW;
      AheadResolves(base, number);
      if currentWindow + FREE_WINDOWS - 1 <= reliableWindow <= currentWindow + FREE_WINDOWS {
        return;
      }
      acknowledgements := acknowledgements + [number];
    }
  }

  /** A handler did what the specification of arrivals says. */
  ghost predicate Answers(code: int, before: Receiver, after: Receiver, m: Message, limit: nat, full: bool) {
    match Arrive(before, m, limit, full)
    case Refused => code == -1 && after == before
    case Taken(next) => code == 0 && after == next
  }

  datatype Queued = Stored(at: nat) | Dummy | Failed

  function Spans(count: nat): nat { if count > 0 then count else 1 }

  /** A new queue entry: no fragment of it has arrived. */
  function Started(number: nat, count: nat, data: seq<Byte>): Incoming {
    Incoming(number, count, count, NoneArrived(count), data)
  }

  /** What is not queued: too far ahead, the last number dispatched, or queued already. */
  predicate Unwanted(r: Receiver, n: nat) {
    TooFar(r.base, n) || n == r.base || Find(r.queue, n) < |r.queue|
  }

  lemma {:induction false} SearchLocates(r: Receiver, commands: seq<Incoming>, number: nat, k: nat, found: bool)
    requires Orderly(r) && r.queue == Lifted(r.base, commands) && number < SPAN
    requires k <= |commands| && (k == 0 ==> !found)
    requires forall a :: k <= a < |commands| ==> Resolve(r.base, commands[a].number) > Resolve(r.base, number)
    requires k > 0 && found ==> commands[k - 1].number == number
    requires k > 0 && !found ==> Resolve(r.base, commands[k - 1].number) < Resolve(r.base, number)
    ensures Located(r.queue, Resolve(r.base, number), k, found)
  {
    hide Resolve, Orderly;
    if found { FindsAt(r.queue, Resolve(r.base, number), k); } else { FindsNone(r, Resolve(r.base, number), k); }
  }

  /** Inserting at the place found is placing in order, and keeps the queue orderly. */
  lemma {:induction false} InsertLifts(r: Receiver, commands: seq<Incoming>, x: Incoming, k: nat)
    requires Orderly(r) && r.queue == Lifted(r.base, commands)
    requires Located(r.queue, Resolve(r.base, x.number), k, false)
    ensures Lifted(r.base, commands[..k] + [x] + commands[k..]) == Place(r.queue, Lift(r.base, x))
            == r.queue[..k] + [Lift(r.base, x)] + r.queue[k..]
  {
    hide Orderly, Resolve;
    var y := Lift(r.base, x);
    PlaceAt(r.queue, y, k);
    LiftedJoins(r.base, commands[..k], x, commands[k..]);
    LiftedSlices(r.base, commands, k);
  }

  lemma {:induction false} LiftedSlices(base: nat, commands: seq<Incoming>, k: nat)
    requires k <= |commands|
    ensures Lifted(base, commands[..k]) == Lifted(base, commands)[..k]
    ensures Lifted(base, commands[k..]) == Lifted(base, commands)[k..]
  {
  }

  lemma {:induction false} LiftedJoins(base: nat, before: seq<Incoming>, x: Incoming, after: seq<Incoming>)
    ensures Lifted(base, before + [x] + after) == Lifted(base, before) + [Lift(base, x)] + Lifted(base, after)
  {
  }

  lemma {:induction false} InsertStaysOrderly(r: Receiver, x: Incoming, k: nat)
    requires Orderly(r) && Located(r.queue, x.number, k, false) && Fits(r.queue, x.number, Span(x)) && Shape(x)
    requires r.base < x.number < r.base + SPAN
    ensures Orderly(r.(queue := r.queue[..k] + [x] + r.queue[k..]))
  {
    hide Find, Resolve, Lifted, Shape, Fits, Span;
    var next := r.(queue := r.queue[..k] + [x] + r.queue[k..]);
    forall a, b | 0 <= a < b < |next.queue| ensures next.queue[a].number + Span(next.queue[a]) <= next.queue[b].number {
      PairsApart(r, x, k, a, b);
    }
  }

  lemma {:induction false} PairsApart(r: Receiver, x: Incoming, k: nat, a: nat, b: nat)
    requires Orderly(r) && Located(r.queue, x.number, k, false) && Fits(r.queue, x.number, Span(x))
    requires a < b <= |r.queue|
    ensures var queue := r.queue[..k] + [x] + r.queue[k..]; queue[a].number + Span(queue[a]) <= queue[b].number
  {
    hide Find, Resolve, Lifted, Shape, Span;
    var queue := r.queue[..k] + [x] + r.queue[k..];
    assert queue[a] == if a < k then r.queue[a] else if a == k then x else r.queue[a - 1];
    assert queue[b] == if b < k then r.queue[b] else if b == k then x else r.queue[b - 1];
    if b == k {
      BelowPlace(r, x.number, k, a);
    } else if a == k {
      FindNowhere(r.queue, x.number);
    }
  }

  lemma {:induction false} BelowPlace(r: Receiver, n: nat, k: nat, a: nat)
    requires Orderly(r) && Located(r.queue, n, k, false) && a < k
    ensures r.queue[a].number < n
  {
  }

  lemma {:induction false} FindNowhere(queue: seq<Incoming>, n: nat)
    ensures Find(queue, n) == |queue| ==> forall a :: 0 <= a < |queue| ==> queue[a].number != n
  {
  }

  /** A command with fragments missing, put into a settled queue, leaves nothing to dispatch. */
  lemma {:induction false} InsertSettles(r: Receiver, x: Incoming, k: nat)
    requires Located(r.queue, x.number, k, false) && x.remaining > 0 && (r.queue != [] ==> !Dispatchable(r))
    ensures var next := r.(queue := r.queue[..k] + [x] + r.queue[k..]); Dispatch(next) == next
  {
  }

  /** Marking looks at no sequence number. */
  lemma {:induction false} SameMarks(base: nat, m: Message)
    requires m.Piece?
    ensures Fresh(Resolved(base, m)) == Started(Resolve(base, m.start), m.count, Blank(m.total))
    ensures forall x: Incoming :: m.offset + |m.data| <= |x.data| ==> Marked(x, Resolved(base, m)) == Marked(x, m)
  {
  }

  /** An entry placed and then marked is the marked entry placed. */
  lemma {:induction false} PlacedThenMarked(r: Receiver, x: Incoming, m: Message, k: nat)
    requires Located(r.queue, x.number, k, false) && m.Piece? && m.offset + |m.data| <= |x.data|
    ensures Place(r.queue, x)[k] == x && Place(r.queue, x)[k := Marked(x, m)] == Place(r.queue, Marked(x, m))
  {
    PlaceAt(r.queue, x, k);
    PlaceAt(r.queue, Marked(x, m), k);
  }

  lemma {:induction false} LiftedUpdate(base: nat, commands: seq<Incoming>, at: nat, x: Incoming)
    requires at < |commands|
    ensures Lifted(base, commands[at := x]) == Lifted(base, commands)[at := Lift(base, x)]
  {
  }

  lemma {:induction false} ShapeAt(r: Receiver, a: nat)
    requires Orderly(r) && a < |r.queue|
    ensures Shape(r.queue[a])
  {
  }

  lemma {:induction false} DispatchEnds(r: Receiver)
    requires r.queue == [] || !Dispatchable(r)
    ensures Dispatch(r) == r
  {
  }

  /** What marking a fragment changes, and that the count of missing ones stays right. */
  lemma {:induction false} MarkedShape(x: Incoming, m: Message)
    requires Shape(x) && m.Piece? && m.index < m.count == x.count && m.offset + |m.data| <= |x.data|
    ensures |x.arrived| == x.count && (!x.arrived[m.index] ==> x.remaining > 0)
    ensures Shape(Marked(x, m)) && Span(Marked(x, m)) == Span(x) && Marked(x, m).number == x.number
    ensures x.arrived[m.index] ==> Marked(x, m) == x
  {
    MissingNone(x.arrived, m.index);
  }

  lemma {:induction false} UpdateStaysOrderly(r: Receiver, at: nat, y: Incoming)
    requires Orderly(r) && at < |r.queue| && y.number == r.queue[at].number && Span(y) == Span(r.queue[at]) && Shape(y)
    ensures Orderly(r.(queue := r.queue[at := y]))
  {
    hide Shape;
    var next := r.(queue := r.queue[at := y]);
    assert forall a :: 0 <= a < |r.queue| ==>
      next.queue[a].number == r.queue[a].number && Span(next.queue[a]) == Span(r.queue[a]);
  }

  /** The dispatch loop has gone over `current` commands. */
  ghost predicate Scanned(r: Receiver, now: Receiver, commands: seq<Incoming>, current: nat) {
    && current <= |commands| && r.queue == Lifted(r.base, commands)
    && (forall a :: 0 <= a < |commands| ==> commands[a].number < SPAN)
    && now.queue == r.queue[current..] && now.dispatched == r.dispatched + Payloads(commands[..current])
    && r.base <= now.base && Orderly(now) && Dispatch(now) == Dispatch(r)
  }

  lemma {:induction false} ScanStarts(r: Receiver, commands: seq<Incoming>)
    requires r.queue == Lifted(r.base, commands) && Orderly(r)
    requires forall a :: 0 <= a < |commands| ==> commands[a].number < SPAN
    ensures Scanned(r, r, commands, 0)
  {
    assert Payloads(commands[..0]) == [];
  }

  lemma {:induction false} HeadOnWire(r: Receiver, now: Receiver, commands: seq<Incoming>, current: nat)
    requires Scanned(r, now, commands, current) && current < |commands|
    ensures now.queue != []
    ensures var command := commands[current];
            && (Dispatchable(now) <==> command.remaining == 0 && command.number == (Wire(now.base) + 1) % SPAN)
            && (Dispatchable(now) ==>
                  Wire(now.base + Span(command)) == if command.count > 0 then (command.number + command.count - 1) % SPAN
                                                    else command.number)
  {
    hide Dispatch, Payloads;
    var command := commands[current];
    assert now.queue[0] == Lift(r.base, command);
    AheadResolves(r.base, command.number);
    NextOnWire(now.base, now.queue[0].number);
    if command.count > 0 { WireSum(now.queue[0].number, command.count - 1); }
  }

  lemma {:induction false} ScanStep(r: Receiver, now: Receiver, commands: seq<Incoming>, current: nat) returns (next: Receiver)
    requires Scanned(r, now, commands, current) && current < |commands| && now.queue != [] && Dispatchable(now)
    ensures Scanned(r, next, commands, current + 1) && next.base == now.base + Span(commands[current])
  {
    next := DispatchStep(now);
    PayloadsGrow(commands, current);
    assert now.queue[0] == Lift(r.base, commands[current]);
  }

  lemma {:induction false} ScanEnds(r: Receiver, now: Receiver, commands: seq<Incoming>, current: nat)
    requires Scanned(r, now, commands, current) && (current == |commands| || (now.queue != [] && !Dispatchable(now)))
    ensures now == Receiver(now.base, Lifted(now.base, commands[current..]), r.dispatched + Payloads(commands[..current]))
    ensures current == 0 ==> now == Receiver(now.base, Lifted(now.base, commands), r.dispatched)
    ensures now == Dispatch(r) && Orderly(now) && (now.queue != [] ==> !Dispatchable(now))
    ensures forall a :: 0 <= a < |commands[current..]| ==> commands[current..][a].number < SPAN
  {
    RestLifted(r.base, now, commands, current);
    if current == 0 {
      assert commands[0..] == commands;
      assert Payloads(commands[..0]) == [];
    }
  }

  lemma {:induction false} RestLifted(base: nat, now: Receiver, commands: seq<Incoming>, current: nat)
    requires Orderly(now) && base <= now.base && current <= |commands| && now.queue == Lifted(base, commands)[current..]
    requires forall a :: 0 <= a < |commands| ==> commands[a].number < SPAN
    ensures Lifted(now.base, commands[current..]) == now.queue
  {
    var rest := commands[current..];
    assert Lifted(base, rest) == now.queue;
    assert forall a :: 0 <= a < |rest| ==> Resolve(base, rest[a].number) == now.queue[a].number;
    LiftedAgain(base, now.base, rest);
  }

  function Payloads(commands: seq<Incoming>): (p: seq<seq<Byte>>)
    ensures |p| == |commands| && forall a :: 0 <= a < |p| ==> p[a] == commands[a].data
  {
    if commands == [] then [] else [commands[0].data] + Payloads(commands[1..])
  }

  lemma {:induction false} PayloadsGrow(commands: seq<Incoming>, n: nat)
    requires n < |commands|
    ensures Payloads(commands[..n + 1]) == Payloads(commands[..n]) + [commands[n].data]
  {
  }

  lemma {:induction false} DispatchStep(r: Receiver) returns (next: Receiver)
    requires Orderly(r) && r.queue != [] && Dispatchable(r)
    ensures next == Receiver(r.base + Span(r.queue[0]), r.queue[1..], r.dispatched + [r.queue[0].data])
    ensures Orderly(next) && Dispatch(next) == Dispatch(r)
  {
    OrderlyTail(r);
    next := Receiver(r.base + Span(r.queue[0]), r.queue[1..], r.dispatched + [r.queue[0].data]);
  }

  /** Where number n is in a queue, or would go. */
  ghost predicate Located(queue: seq<Incoming>, n: nat, k: nat, found: bool) {
    if found then 0 < k <= |queue| && Find(queue, n) == k - 1
    else
      && k <= |queue| && Find(queue, n) == |queue|
      && (forall a :: k <= a < |queue| ==> queue[a].number > n) && (k > 0 ==> queue[k - 1].number < n)
  }

  lemma {:induction false} FindsAt(queue: seq<Incoming>, n: nat, k: nat)
    requires 0 < k <= |queue| && queue[k - 1].number == n && forall a :: k <= a < |queue| ==> queue[a].number > n
    ensures Located(queue, n, k, true)
    decreases |queue|
  {
    if k < |queue| { FindsAt(queue[..|queue| - 1], n, k); }
  }

  lemma {:induction false} FindsNone(r: Receiver, n: nat, k: nat)
    requires Orderly(r) && k <= |r.queue| && (forall a :: k <= a < |r.queue| ==> r.queue[a].number > n)
    requires k > 0 ==> r.queue[k - 1].number < n
    ensures Located(r.queue, n, k, false)
  {
    hide Find;
  }
}
