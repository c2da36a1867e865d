/** The order in which a channel hands over its packets, reliable and unreliable. */
module ChannelOrder {
  import opened Windows
  import opened Receiving
  import ReceiveChannel

  /** A queued unreliable command. `number` is the unbounded reliable number it was sent under; an unsequenced one
      carries number 0 and unreliable number 0. `remaining` counts missing fragments. */
  datatype Item = Item(number: nat, unreliable: nat, unsequenced: bool, remaining: nat)

  datatype Packet = Reliable(number: nat) | Unreliable(item: Item)

  predicate Less(a: Item, b: Item) { a.number < b.number || (a.number == b.number && a.unreliable < b.unreliable) }

  predicate Ordered(queue: seq<Item>) {
    forall i, j :: 0 <= i < j < |queue| && !queue[i].unsequenced && !queue[j].unsequenced ==> Less(queue[i], queue[j])
  }

  /** A reliable packet comes before the unreliable ones sent after it. */
  predicate Precedes(a: Packet, b: Packet) {
    match (a, b)
    case (Reliable(n), Reliable(m)) => n < m
    case (Reliable(n), Unreliable(x)) => n <= x.number
    case (Unreliable(x), Reliable(m)) => x.number < m
    case (Unreliable(x), Unreliable(y)) => Less(x, y)
  }

  predicate Loose(p: Packet) { p.Unreliable? && p.item.unsequenced }

  /** Everything sequenced was handed over in increasing order, so nothing twice. */
  predicate InOrder(packets: seq<Packet>) {
    forall i, j :: 0 <= i < j < |packets| && !Loose(packets[i]) && !Loose(packets[j]) ==> Precedes(packets[i], packets[j])
  }

  /** What a channel may hand over: an unsequenced command, or a complete one under the current number. */
  predicate Ready(x: Item, base: nat) { x.unsequenced || (x.number == base && x.remaining == 0) }

  predicate Future(x: Item, base: nat) { !x.unsequenced && x.number > base }

  /** The first command that waits for a later reliable number. */
  function Stop(queue: seq<Item>, base: nat): (n: nat)
    ensures n <= |queue| && (n < |queue| ==> Future(queue[n], base))
    ensures forall i :: 0 <= i < n ==> !Future(queue[i], base)
  {
    if queue == [] || Future(queue[0], base) then 0 else 1 + Stop(queue[1..], base)
  }

  /** The commands of a list that are handed over. */
  function ReadyOnes(queue: seq<Item>, base: nat): seq<Packet> {
    if queue == [] then []
    else
      ReadyOnes(queue[..|queue| - 1], base)
      + if Ready(queue[|queue| - 1], base) then [Unreliable(queue[|queue| - 1])] else []
  }

  /** The unreliable number after handing them over. */
  function LastUnreliable(queue: seq<Item>, base: nat, u: nat): nat {
    if queue == [] then u
    else
      var x := queue[|queue| - 1];
      if !x.unsequenced && Ready(x, base) then x.unreliable else LastUnreliable(queue[..|queue| - 1], base, u)
  }

  /** A queue whose commands are near enough to the base for 16 bits to tell them apart. */
  predicate Recent(x: Item, base: nat) {
    x.unsequenced || WindowOf(base) - 9 <= WindowOf(x.number) < WindowOf(base) + FREE_WINDOWS - 1
  }

  /** What 16 bits show of a command. */
  lemma {:induction false} SeenAs(x: Item, base: nat)
    requires Recent(x, base) && !x.unsequenced
    ensures Wire(x.number) == Wire(base) <==> x.number == base
    ensures x.number != base ==>
              (0 <= Ahead(Wire(x.number), Wire(base)) < FREE_WINDOWS - 1 <==> x.number > base)
  {
    WindowsApart(x.number, base);
    WindowsApart(base, x.number);
    if x.number < base { WireInjective(x.number, base); LaterWindow(x.number); }
    if base < x.number { WireInjective(base, x.number); }
    AheadResolves(base, Wire(x.number));
    ResolveRecognises(base, x.number);
    if x.number > base { WindowsApart(base, x.number); }
  }

  lemma {:induction false} ReadyMore(queue: seq<Item>, base: nat, u: nat, n: nat)
    requires n < |queue|
    ensures ReadyOnes(queue[..n + 1], base) == ReadyOnes(queue[..n], base) + if Ready(queue[n], base) then [Unreliable(queue[n])] else []
    ensures LastUnreliable(queue[..n + 1], base, u) ==
            if !queue[n].unsequenced && Ready(queue[n], base) then queue[n].unreliable else LastUnreliable(queue[..n], base, u)
  {
    assert queue[..n + 1][..n] == queue[..n];
  }

  lemma {:induction false} StopAt(queue: seq<Item>, base: nat, n: nat)
    requires n <= |queue| && (n < |queue| ==> Future(queue[n], base))
    requires forall i :: 0 <= i < n ==> !Future(queue[i], base)
    ensures Stop(queue, base) == n
  {
  }

  predicate Incomplete(x: Item, base: nat) { !x.unsequenced && x.number == base && x.remaining > 0 }

  /** Of the first n commands, all but up to two incomplete ones at the end are removed. */
  function Spare(queue: seq<Item>, n: nat, base: nat): (d: nat)
    requires n <= |queue|
    ensures d <= n && forall i :: d <= i < n ==> Incomplete(queue[i], base)
  {
    if n == 0 || !Incomplete(queue[n - 1], base) then n
    else if n >= 2 && Incomplete(queue[n - 2], base) then n - 2
    else n - 1
  }

  /** What a dispatch leaves in the queue: up to two incomplete commands, what waits for a later number, and the
      command just queued if it could not be handed over. */
  function Left(queue: seq<Item>, base: nat, queued: int): seq<Item> {
    var d := Spare(queue, Stop(queue, base), base);
    (if 0 <= queued < d && !Ready(queue[queued], base) then [queue[queued]] else []) + queue[d..]
  }

  class Channel {
    var incomingReliableSequenceNumber: nat
    var incomingUnreliableSequenceNumber: nat
    var incomingUnreliableCommands: seq<Item>
    var dispatchedCommands: seq<Packet>

    /** The unbounded number behind incomingReliableSequenceNumber. */
    ghost var base: nat

    /** `enet_peer_dispatch_incoming_unreliable_commands`; `queued` is the place of the command just queued, or -1.
        Positions are those in the list before the call; `gone` marks what has been moved out of it. */
    method DispatchIncomingUnreliable(queued: int)
      requires incomingReliableSequenceNumber == Wire(base)
      requires forall x :: x in incomingUnreliableCommands ==> Recent(x, base)
      modifies this`incomingUnreliableCommands, this`dispatchedCommands, this`incomingUnreliableSequenceNumber
      ensures var queue := old(incomingUnreliableCommands);
              var stop := Stop(queue, base);
              && dispatchedCommands == old(dispatchedCommands) + ReadyOnes(queue[..stop], base)
              && incomingUnreliableSequenceNumber == LastUnreliable(queue[..stop], base, old(incomingUnreliableSequenceNumber))
              && incomingUnreliableCommands == Left(queue, base, queued)
    {
      hide ReadyOnes, LastUnreliable, Stop, Recent, Walked, Spare;
      var queue := incomingUnreliableCommands;
      var startCommand: nat, droppedCommand: nat, current: nat := 0, 0, 0;
      var gone := seq(|queue|, _ => false);
      NothingReady(base, incomingUnreliableSequenceNumber);
      WalkStarts(queue, gone, base);
      assert queue[..0] == [];
      while current < |queue|
        invariant startCommand <= current <= |queue| && droppedCommand <= current
        invariant Walked(queue, gone, startCommand, current, base)
        invariant startCommand == current ==> droppedCommand == Spare(queue, current, base)
        invariant dispatchedCommands == old(dispatchedCommands) + ReadyOnes(queue[..startCommand], base)
        invariant incomingUnreliableSequenceNumber == LastUnreliable(queue[..current], base, old(incomingUnreliableSequenceNumber))
      {
        var incomingCommand := queue[current];
        ReadyMore(queue, base, old(incomingUnreliableSequenceNumber), current);
        if incomingCommand.unsequenced {
          WalkReady(queue, gone, startCommand, current, base);
          current := current + 1;
          continue;
        }
        SeenAs(incomingCommand, base);
        if Wire(incomingCommand.number) == incomingReliableSequenceNumber {
          if incomingCommand.remaining <= 0 {
            WalkReady(queue, gone, startCommand, current, base);
            incomingUnreliableSequenceNumber := incomingCommand.unreliable;
            current := current + 1;
            continue;
          }
          SpareNext(queue, current, base);
          if startCommand != current {
            SpareAfterRun(queue, gone, startCommand, current, base);
            gone := MoveRun(queue, gone, startCommand, current);
            droppedCommand := current;
          } else if droppedCommand != current {
            // The command before this one is incomplete too, so it is still in the list.
            droppedCommand := current - 1;
          }
        } else {
          var reliableWindow := Wire(incomingCommand.number) / WINDOW
                                + if Wire(incomingCommand.number) < incomingReliableSequenceNumber then WINDOWS else 0;
          var currentWindow := incomingReliableSequenceNumber / WINDOW;
          if currentWindow <= reliableWindow < currentWindow + FREE_WINDOWS - 1 {
            break;
          }
          SpareNext(queue, current, base);
          droppedCommand := current + 1;
          if startCommand != current {
            gone := MoveRun(queue, gone, startCommand, current);
          }
        }
        WalkSkip(queue, gone, current, base);
        current := current + 1;
        startCommand := current;
      }
      if startCommand != current {
        SpareAfterRun(queue, gone, startCommand, current, base);
        gone := MoveRun(queue, gone, startCommand, current);
        droppedCommand := current;
      }
      WalkEnds(queue, gone, current, base);
      RemoveIncoming(queue, gone, droppedCommand, queued);
    }

    ghost predicate Valid()
      reads this
    {
      && incomingReliableSequenceNumber == Wire(base)
      && Sound(base, incomingUnreliableSequenceNumber, incomingUnreliableCommands, dispatchedCommands)
    }

    constructor ()
      ensures Valid() && dispatchedCommands == [] && incomingUnreliableCommands == [] && base == 0
    {
      incomingReliableSequenceNumber, incomingUnreliableSequenceNumber, base := 0, 0, 0;
      incomingUnreliableCommands, dispatchedCommands := [], [];
    }

    /** `enet_peer_queue_incoming_command` for unreliable and unsequenced commands; `full` says that
        maximumWaitingData is reached. */
    method QueueIncoming(x: Item, full: bool) returns (stored: bool)
      requires Valid() && (!x.unsequenced ==> x.number == Resolve(base, Wire(x.number)) && x.unreliable > 0)
      modifies this`incomingUnreliableCommands, this`dispatchedCommands, this`incomingUnreliableSequenceNumber
      ensures Valid()
      ensures stored <==> !full && Wanted(x, base, old(incomingUnreliableSequenceNumber), old(incomingUnreliableCommands))
      ensures !stored ==> unchanged(this)
      ensures stored && !Ready(x, base) ==> x in incomingUnreliableCommands && dispatchedCommands == old(dispatchedCommands)
      ensures stored && Ready(x, base) ==> dispatchedCommands == old(dispatchedCommands) + [Unreliable(x)]
    {
      hide Ordered, InOrder, Stop, ReadyOnes, LastUnreliable, Left;
      ghost var queue := incomingUnreliableCommands;
      var k: nat := 0;
      if !x.unsequenced {
        AheadResolves(base, Wire(x.number));
        var reliableWindow := Wire(x.number) / WINDOW + if Wire(x.number) < incomingReliableSequenceNumber then WINDOWS else 0;
        var currentWindow := incomingReliableSequenceNumber / WINDOW;
        if reliableWindow < currentWindow || reliableWindow >= currentWindow + FREE_WINDOWS - 1 {
          return false;
        }
        if Wire(x.number) == incomingReliableSequenceNumber && x.unreliable <= incomingUnreliableSequenceNumber {
          return false;
        }
        var found;
        k, found := Search(x);
        if found {
          return false;
        }
      }
      if full {
        return false;
      }
      incomingUnreliableCommands := incomingUnreliableCommands[..k] + [x] + incomingUnreliableCommands[k..];
      InsertPends(base, incomingUnreliableSequenceNumber, queue, dispatchedCommands, x, k);
      InsertHandsOver(base, incomingUnreliableSequenceNumber, queue, dispatchedCommands, x, k);
      DispatchIsSound(base, incomingUnreliableSequenceNumber, incomingUnreliableCommands, dispatchedCommands, k);
      DispatchIncomingUnreliable(k);
      stored := true;
    }

    /** A fragment of a queued unreliable packet arrives; the last one lets it be handed over. */
    method CompleteFragment(k: nat)
      requires Valid() && k < |incomingUnreliableCommands| && incomingUnreliableCommands[k].remaining > 0
      modifies this`incomingUnreliableCommands, this`dispatchedCommands, this`incomingUnreliableSequenceNumber
      ensures Valid()
      ensures var x := old(incomingUnreliableCommands)[k].(remaining := old(incomingUnreliableCommands)[k].remaining - 1);
              && dispatchedCommands == old(dispatchedCommands) + (if Ready(x, base) then [Unreliable(x)] else [])
              && incomingUnreliableCommands ==
                 if x.remaining > 0 then old(incomingUnreliableCommands)[k := x]
                 else Left(old(incomingUnreliableCommands)[k := x], base, -1)
    {
      hide Ordered, InOrder, Stop, ReadyOnes, LastUnreliable, Left;
      ghost var queue := incomingUnreliableCommands;
      var x := incomingUnreliableCommands[k].(remaining := incomingUnreliableCommands[k].remaining - 1);
      assert Waits(queue[k], base, incomingUnreliableSequenceNumber) by { assert queue[k] in queue; }
      UpdatePends(base, incomingUnreliableSequenceNumber, queue, dispatchedCommands, k, x);
      incomingUnreliableCommands := incomingUnreliableCommands[k := x];
      if x.remaining <= 0 {
        UpdateHandsOver(base, incomingUnreliableSequenceNumber, queue, dispatchedCommands, k, x);
        DispatchIsSound(base, incomingUnreliableSequenceNumber, incomingUnreliableCommands, dispatchedCommands, -1);
        DispatchIncomingUnreliable(-1);
      }
    }

    /** `enet_peer_dispatch_incoming_reliable_commands`: the loop uses up the numbers of the packets that can go; then
        they are handed over, and the unreliable commands sent under the last number follow. */
    method DispatchReliable(incomingReliableCommands: seq<Incoming>)
      requires Valid() && ReceiveChannel.Orderly(Receiver(base, incomingReliableCommands, []))
      requires WindowOf(Dispatch(Receiver(base, incomingReliableCommands, [])).base) <= WindowOf(base) + 9
      modifies this
      ensures Valid()
      ensures var r := Receiver(old(base), incomingReliableCommands, []); var queue := old(incomingUnreliableCommands);
              && base == Dispatch(r).base
              && (if Numbers(r) == [] then unchanged(this)
                  else && dispatchedCommands == old(dispatchedCommands) + AsReliable(Numbers(r))
                                                + ReadyOnes(queue[..Stop(queue, base)], base)
                       && incomingUnreliableCommands == Left(queue, base, -1))
    {
      hide Valid, Numbers, Dispatch, Dispatchable, ReceiveChannel.Orderly, AsReliable;
      ghost var r := Receiver(base, incomingReliableCommands, []);
      var before := Counter();
      var numbers, number := FindRun(incomingReliableCommands, before, base);
      if numbers == [] {
        NoRun(r);
        return;
      }
      NumbersGrow(r);
      HandOver(numbers, Dispatch(r).base, number);
    }

    /** The counter as the loop finds it. */
    method Counter() returns (number: nat)
      requires Valid()
      ensures number == Wire(base)
    {
      number := incomingReliableSequenceNumber;
    }

    method HandOver(numbers: seq<nat>, ghost next: nat, number: nat)
      requires Valid() && numbers != [] && numbers[0] > base && numbers[|numbers| - 1] <= next && number == Wire(next)
      requires forall i, j :: 0 <= i < j < |numbers| ==> numbers[i] < numbers[j]
      requires WindowOf(next) <= WindowOf(base) + 9
      modifies this
      ensures Valid() && base == next
      ensures var queue := old(incomingUnreliableCommands);
              && dispatchedCommands == old(dispatchedCommands) + AsReliable(numbers) + ReadyOnes(queue[..Stop(queue, next)], next)
              && incomingUnreliableCommands == Left(queue, next, -1)
    {
      hide Ordered, InOrder, Stop, ReadyOnes, LastUnreliable, Left, AsReliable;
      ghost var queue := incomingUnreliableCommands;
      ReliablePends(base, incomingUnreliableSequenceNumber, queue, dispatchedCommands, numbers, next);
      incomingReliableSequenceNumber := number;
      base := next;
      incomingUnreliableSequenceNumber := 0;
      dispatchedCommands := dispatchedCommands + AsReliable(numbers);
      DispatchIsSound(base, 0, queue, dispatchedCommands, -1);
      if incomingUnreliableCommands != [] {
        DispatchIncomingUnreliable(-1);
      } else {
        EmptyQueue(base);
        assert queue[..Stop(queue, base)] == queue;
        NothingReady(base, 0);
      }
    }

    /** The backwards search: `k` is the place after the last command that comes before x. */
    method Search(x: Item) returns (k: nat, found: bool)
      requires Valid() && !x.unsequenced && x.number == Resolve(base, Wire(x.number))
      ensures k <= |incomingUnreliableCommands|
      ensures found <==> exists y :: y in incomingUnreliableCommands && SamePlace(x, y)
      ensures !found ==> forall i :: 0 <= i < |incomingUnreliableCommands| ==>
                           if i < k then Less(incomingUnreliableCommands[i], x) else Less(x, incomingUnreliableCommands[i])
    {
      k := |incomingUnreliableCommands|;
      found := false;
      while k > 0
        invariant k <= |incomingUnreliableCommands| && !found
        invariant forall i :: k <= i < |incomingUnreliableCommands| ==> Less(x, incomingUnreliableCommands[i])
      {
        var incomingCommand := incomingUnreliableCommands[k - 1];
        Seen(base, incomingUnreliableSequenceNumber, incomingUnreliableCommands, dispatchedCommands, k - 1);
        WireOrder(base, Wire(incomingCommand.number), Wire(x.number));
        if Wire(x.number) >= incomingReliableSequenceNumber {
          if Wire(incomingCommand.number) < incomingReliableSequenceNumber {
            k := k - 1;
            continue;
          }
        } else if Wire(incomingCommand.number) >= incomingReliableSequenceNumber {
          break;
        }
        if Wire(incomingCommand.number) < Wire(x.number) {
          break;
        }
        if Wire(incomingCommand.number) > Wire(x.number) {
          k := k - 1;
          continue;
        }
        if incomingCommand.unreliable <= x.unreliable {
          if incomingCommand.unreliable < x.unreliable {
            break;
          }
          assert incomingCommand in incomingUnreliableCommands && SamePlace(x, incomingCommand);
          return k, true;
        }
        k := k - 1;
      }
      SearchEnds(base, incomingUnreliableSequenceNumber, incomingUnreliableCommands, dispatchedCommands, x, k);
    }

    /** `enet_list_move` of a run of ready commands to the end of the dispatched ones. */
    method MoveRun(queue: seq<Item>, gone: seq<bool>, start: nat, current: nat) returns (after: seq<bool>)
      requires start < current && Walked(queue, gone, start, current, base)
      modifies this`dispatchedCommands
      ensures Walked(queue, after, current, current, base) && current <= |queue|
      ensures forall before :: old(dispatchedCommands) == before + ReadyOnes(queue[..start], base) ==>
                               dispatchedCommands == before + ReadyOnes(queue[..current], base)
    {
      hide ReadyOnes, AsPackets, Future;
      ReadyRun(queue, base, start, current);
      dispatchedCommands := dispatchedCommands + AsPackets(queue[start..current]);
      after := gone[..start] + seq(current - start, _ => true) + gone[current..];
    }

    /** `enet_peer_remove_incoming_commands` from the head of the list up to `limit`, sparing one command. */
    method RemoveIncoming(queue: seq<Item>, gone: seq<bool>, limit: nat, exclude: int)
      requires limit <= |queue| == |gone|
      modifies this`incomingUnreliableCommands
      ensures incomingUnreliableCommands ==
              (if 0 <= exclude < limit && !gone[exclude] then [queue[exclude]] else [])
              + queue[limit..]
    {
      var kept := [];
      var current: nat := 0;
      while current < limit
        invariant current <= limit
        invariant kept == if 0 <= exclude < current && !gone[exclude] then [queue[exclude]] else []
      {
        if !gone[current] && current == exclude {
          kept := kept + [queue[current]];
        }
        current := current + 1;
      }
      incomingUnreliableCommands := kept + queue[limit..];
    }
  }

  /** The dispatch loop has looked at the commands before `current`. Those from `start` on are ready and will move
      together; of the others the ready ones have moved. */
  predicate Walked(queue: seq<Item>, gone: seq<bool>, start: nat, current: nat, base: nat) {
    && start <= current <= |queue| == |gone|
    && (forall i :: 0 <= i < current ==> !Future(queue[i], base))
    && (forall i :: start <= i < current ==> Ready(queue[i], base))
    && (forall i :: 0 <= i < |queue| ==> (gone[i] <==> i < start && Ready(queue[i], base)))
  }

  lemma {:induction false} WalkStarts(queue: seq<Item>, gone: seq<bool>, base: nat)
    requires |gone| == |queue| && forall i :: 0 <= i < |gone| ==> !gone[i]
    ensures Walked(queue, gone, 0, 0, base) && Spare(queue, 0, base) == 0
  {
  }

  lemma {:induction false} WalkReady(queue: seq<Item>, gone: seq<bool>, start: nat, current: nat, base: nat)
    requires Walked(queue, gone, start, current, base) && current < |queue| && Ready(queue[current], base)
    ensures Walked(queue, gone, start, current + 1, base)
  {
  }

  lemma {:induction false} WalkSkip(queue: seq<Item>, gone: seq<bool>, current: nat, base: nat)
    requires Walked(queue, gone, current, current, base) && current < |queue|
    requires !Ready(queue[current], base) && !Future(queue[current], base)
    ensures Walked(queue, gone, current + 1, current + 1, base)
  {
  }

  lemma {:induction false} SpareNext(queue: seq<Item>, n: nat, base: nat)
    requires n < |queue|
    ensures Spare(queue, n + 1, base) ==
            if !Incomplete(queue[n], base) then n + 1
            else if Spare(queue, n, base) != n then n - 1 else n
    ensures n > 0 && Ready(queue[n - 1], base) ==> Spare(queue, n, base) == n
    ensures Spare(queue, n, base) != n ==> n > 0
  {
  }

  lemma {:induction false} SpareAfterRun(queue: seq<Item>, gone: seq<bool>, start: nat, current: nat, base: nat)
    requires start < current && Walked(queue, gone, start, current, base)
    ensures Spare(queue, current, base) == current
  {
    assert Ready(queue[current - 1], base);
  }

  lemma {:induction false} WalkEnds(queue: seq<Item>, gone: seq<bool>, current: nat, base: nat)
    requires Walked(queue, gone, current, current, base) && (current < |queue| ==> Future(queue[current], base))
    ensures Stop(queue, base) == current && |queue| == |gone|
    ensures forall i :: 0 <= i < |queue| ==> (gone[i] <==> i < current && Ready(queue[i], base))
  {
    StopAt(queue, base, current);
  }

  function AsPackets(items: seq<Item>): (p: seq<Packet>)
    ensures |p| == |items| && forall i :: 0 <= i < |p| ==> p[i] == Unreliable(items[i])
  {
    if items == [] then [] else [Unreliable(items[0])] + AsPackets(items[1..])
  }

  lemma {:induction false} ReadyRun(queue: seq<Item>, base: nat, start: nat, end: nat)
    requires start <= end <= |queue| && forall i :: start <= i < end ==> Ready(queue[i], base)
    ensures ReadyOnes(queue[..end], base) == ReadyOnes(queue[..start], base) + AsPackets(queue[start..end])
  {
    hide ReadyOnes, AsPackets;
    if start < end {
      ReadyRun(queue, base, start, end - 1);
      ReadyMore(queue, base, 0, end - 1);
      assert AsPackets(queue[start..end]) == AsPackets(queue[start..end - 1]) + [Unreliable(queue[end - 1])];
    } else {
      assert AsPackets(queue[start..end]) == [];
    }
  }

  predicate SamePlace(x: Item, y: Item) { x.number == y.number && x.unreliable == y.unreliable }

  /** What is queued: everything unsequenced; otherwise what is near enough, not handed over and not queued yet. */
  predicate Wanted(x: Item, base: nat, u: nat, queue: seq<Item>) {
    || x.unsequenced
    || (WindowOf(x.number) - WindowOf(base) < FREE_WINDOWS - 1 && (x.number == base ==> x.unreliable > u)
        && forall y :: y in queue ==> !SamePlace(x, y))
  }

  /** A command that waits in the queue: for a later number, or for fragments. */
  predicate Waits(x: Item, base: nat, u: nat) {
    && !x.unsequenced && x.unreliable > 0 && WindowOf(x.number) < WindowOf(base) + FREE_WINDOWS - 1
    && (x.number > base || (x.number == base && x.unreliable > u && x.remaining > 0))
  }

  /** A packet that was handed over under a number up to the current ones. */
  predicate Past(p: Packet, base: nat, u: nat) {
    match p
    case Reliable(n) => n <= base
    case Unreliable(x) => x.unsequenced || x.number < base || (x.number == base && x.unreliable <= u)
  }

  ghost predicate Sound(base: nat, u: nat, queue: seq<Item>, packets: seq<Packet>) {
    && Ordered(queue) && (forall x :: x in queue ==> Waits(x, base, u))
    && InOrder(packets) && forall p :: p in packets ==> Past(p, base, u)
  }

  lemma {:induction false} Seen(base: nat, u: nat, queue: seq<Item>, packets: seq<Packet>, k: nat)
    requires Sound(base, u, queue, packets) && k < |queue|
    ensures Resolve(base, Wire(queue[k].number)) == queue[k].number
  {
    assert queue[k] in queue;
    WindowsApart(base, queue[k].number);
    ResolveRecognises(base, queue[k].number);
  }

  /** One command put in its place in a queue of waiting ones. */
  ghost predicate Insertable(base: nat, u: nat, queue: seq<Item>, packets: seq<Packet>, x: Item, k: nat) {
    && Sound(base, u, queue, packets) && k <= |queue|
    && if x.unsequenced then k == 0
       else
         && base <= x.number && WindowOf(x.number) - WindowOf(base) < FREE_WINDOWS - 1 && x.unreliable > 0
         && (x.number == base ==> x.unreliable > u)
         && forall i :: 0 <= i < |queue| ==> if i < k then Less(queue[i], x) else Less(x, queue[i])
  }

  lemma {:induction false} InsertPends(base: nat, u: nat, queue: seq<Item>, packets: seq<Packet>, x: Item, k: nat)
    requires Insertable(base, u, queue, packets, x, k)
    ensures var after := queue[..k] + [x] + queue[k..];
            Pending(base, u, after, packets, k) && forall y :: y in after ==> Recent(y, base)
  {
    hide InOrder, Past, Ordered, Stop;
    var after := queue[..k] + [x] + queue[k..];
    assert forall i :: 0 <= i < |after| && i != k ==> after[i] == queue[if i < k then i else i - 1];
    assert after[k] == x;
    InsertKeepsOrder(base, u, queue, packets, x, k);
    forall y | y in after ensures Fits(y, base, u) && Recent(y, base) {
      assert y == x || (y in queue && Waits(y, base, u));
    }
    forall i | 0 <= i < |queue| ensures Waits(queue[i], base, u) && !Ready(queue[i], base) {
      assert queue[i] in queue;
    }
    if x.unsequenced {
      assert !Future(after[0], base);
      assert Stop(after, base) > 0;
    }
  }

  lemma {:induction false} InsertKeepsOrder(base: nat, u: nat, queue: seq<Item>, packets: seq<Packet>, x: Item, k: nat)
    requires Insertable(base, u, queue, packets, x, k)
    ensures Ordered(queue[..k] + [x] + queue[k..])
  {
    var after := queue[..k] + [x] + queue[k..];
    assert forall i :: 0 <= i < |after| && i != k ==> after[i] == queue[if i < k then i else i - 1];
  }

  /** The search ends behind the last command that comes before x. */
  lemma {:induction false} SearchEnds(base: nat, u: nat, queue: seq<Item>, packets: seq<Packet>, x: Item, k: nat)
    requires Sound(base, u, queue, packets) && k <= |queue|
    requires forall i :: k <= i < |queue| ==> Less(x, queue[i])
    requires k > 0 ==> Less(queue[k - 1], x)
    ensures forall i :: 0 <= i < |queue| ==> if i < k then Less(queue[i], x) else Less(x, queue[i])
    ensures forall y :: y in queue ==> !SamePlace(x, y)
  {
    forall i | 0 <= i < k ensures Less(queue[i], x) {
      assert queue[i] in queue && queue[k - 1] in queue;
    }
  }

  /** Putting a command into a settled queue hands over that command or nothing. */
  lemma {:induction false} InsertHandsOver(base: nat, u: nat, queue: seq<Item>, packets: seq<Packet>, x: Item, k: nat)
    requires Insertable(base, u, queue, packets, x, k)
    ensures var after := queue[..k] + [x] + queue[k..];
            && ReadyOnes(after[..Stop(after, base)], base) == (if Ready(x, base) then [Unreliable(x)] else [])
            && (!Ready(x, base) ==> x in Left(after, base, k))
  {
    hide ReadyOnes, LastUnreliable, Ordered, InOrder, Stop;
    var after := queue[..k] + [x] + queue[k..];
    var stop := Stop(after, base);
    assert forall i :: 0 <= i < |after| && i != k ==> after[i] == queue[if i < k then i else i - 1];
    assert forall i :: 0 <= i < |queue| ==> queue[i] in queue;
    assert after[k] == x && after[..0] == [];
    NothingReady(base, u);
    if Ready(x, base) {
      assert forall i :: 0 <= i < k ==> !Future(after[i], base);
      assert k < stop;
      NoneReady(after, base, u, 0, k);
      ReadyMore(after, base, u, k);
      NoneReady(after, base, u, k + 1, stop);
    } else {
      NoneReady(after, base, u, 0, stop);
      var d := Spare(after, stop, base);
      if k >= d { assert after[d..][k - d] == x; }
    }
  }

  /** A waiting command with one fragment less to wait for. */
  lemma {:induction false} UpdatePends(base: nat, u: nat, queue: seq<Item>, packets: seq<Packet>, k: nat, x: Item)
    requires Sound(base, u, queue, packets) && k < |queue| && queue[k].remaining > 0
    requires x == queue[k].(remaining := queue[k].remaining - 1)
    ensures Pending(base, u, queue[k := x], packets, -1) && forall y :: y in queue[k := x] ==> Recent(y, base)
    ensures x.remaining > 0 ==> Sound(base, u, queue[k := x], packets)
  {
    assert queue[k] in queue;
    var after := queue[k := x];
    assert forall y :: y in after ==> y == x || y in queue;
    assert forall i :: 0 <= i < |after| ==> after[i] == x || after[i] in queue;
  }

  lemma {:induction false} UpdateHandsOver(base: nat, u: nat, queue: seq<Item>, packets: seq<Packet>, k: nat, x: Item)
    requires Sound(base, u, queue, packets) && k < |queue| && x == queue[k].(remaining := 0)
    ensures var after := queue[k := x];
            ReadyOnes(after[..Stop(after, base)], base) == if Ready(x, base) then [Unreliable(x)] else []
  {
    hide ReadyOnes, LastUnreliable, InOrder, Stop;
    var after := queue[k := x];
    var stop := Stop(after, base);
    assert forall i :: 0 <= i < |queue| ==> queue[i] in queue;
    assert after[..0] == [];
    NothingReady(base, u);
    if Ready(x, base) {
      assert forall i :: 0 <= i < k ==> !Future(after[i], base);
      assert k < stop;
      NoneReady(after, base, u, 0, k);
      ReadyMore(after, base, u, k);
      NoneReady(after, base, u, k + 1, stop);
    } else {
      NoneReady(after, base, u, 0, stop);
    }
  }

  /** The receiver once the packet at the head of its queue has gone. */
  function After(r: Receiver): Receiver
    requires r.queue != []
  {
    Receiver(r.base + Span(r.queue[0]), r.queue[1..], r.dispatched + [r.queue[0].data])
  }

  /** The numbers of the packets a dispatch hands over. */
  function Numbers(r: Receiver): seq<nat>
    decreases |r.queue|
  {
    if r.queue != [] && Dispatchable(r) then [r.queue[0].number] + Numbers(After(r)) else []
  }

  lemma {:induction false} HeadAhead(r: Receiver)
    requires r.queue != [] && ReceiveChannel.Orderly(r)
    ensures r.base < r.queue[0].number < r.base + SPAN
  {
  }

  /** One round of the loop, and how 16 bits decide whether there is one. */
  lemma {:induction false} NextRun(r: Receiver)
    requires r.queue != [] && ReceiveChannel.Orderly(r)
    ensures Dispatchable(r) <==> r.queue[0].remaining == 0 && Wire(r.queue[0].number) == (Wire(r.base) + 1) % SPAN
    ensures Dispatchable(r) ==>
              && ReceiveChannel.Orderly(After(r)) && Dispatch(r) == Dispatch(After(r))
              && Numbers(r) == [r.queue[0].number] + Numbers(After(r))
              && Wire(After(r).base) == if r.queue[0].count > 0 then (Wire(r.queue[0].number) + r.queue[0].count - 1) % SPAN
                                        else Wire(r.queue[0].number)
    ensures !Dispatchable(r) ==> Numbers(r) == [] && Dispatch(r) == r
  {
    hide ReceiveChannel.Orderly;
    var x := r.queue[0];
    HeadAhead(r);
    ReceiveChannel.NextOnWire(r.base, x.number);
    if Dispatchable(r) {
      ReceiveChannel.OrderlyTail(r);
      if x.count > 0 { ReceiveChannel.WireSum(x.number, x.count - 1); }
    }
  }

  lemma {:induction false} RunEnds(r: Receiver)
    ensures r.queue == [] ==> Numbers(r) == [] && Dispatch(r) == r
  {
  }

  lemma {:induction false} NoRun(r: Receiver)
    requires Numbers(r) == []
    ensures Dispatch(r) == r
  {
  }

  /** The loop over the reliable commands: the packets that can go, and the counter they leave. */
  method FindRun(commands: seq<Incoming>, before: nat, ghost base: nat) returns (numbers: seq<nat>, number: nat)
    requires ReceiveChannel.Orderly(Receiver(base, commands, [])) && before == Wire(base)
    ensures numbers == Numbers(Receiver(base, commands, []))
    ensures number == Wire(Dispatch(Receiver(base, commands, [])).base)
  {
    hide Numbers, Dispatch, Dispatchable, ReceiveChannel.Orderly;
    ghost var r := Receiver(base, commands, []);
    ghost var now := r;
    numbers, number := [], before;
    while |numbers| < |commands|
      invariant |numbers| <= |commands| && now.queue == commands[|numbers|..] && number == Wire(now.base)
      invariant ReceiveChannel.Orderly(now) && Dispatch(now).base == Dispatch(r).base && numbers + Numbers(now) == Numbers(r)
      decreases |commands| - |numbers|
    {
      var command := commands[|numbers|];
      NextRun(now);
      if command.remaining > 0 || Wire(command.number) != (number + 1) % SPAN {
        assert numbers + [] == numbers;
        return;
      }
      number := Wire(command.number);
      if command.count > 0 {
        number := (number + command.count - 1) % SPAN;
      }
      now := After(now);
      assert (numbers + [command.number]) + Numbers(now) == numbers + ([command.number] + Numbers(now));
      numbers := numbers + [command.number];
    }
    RunEnds(now);
    assert numbers + [] == numbers;
  }

  /** They increase, from the base on up to what the dispatch uses up. */
  lemma {:induction false} NumbersGrow(r: Receiver)
    requires ReceiveChannel.Orderly(r)
    ensures forall i, j :: 0 <= i < j < |Numbers(r)| ==> Numbers(r)[i] < Numbers(r)[j]
    ensures forall i :: 0 <= i < |Numbers(r)| ==> r.base < Numbers(r)[i] <= Dispatch(r).base
    ensures r.base <= Dispatch(r).base
    decreases |r.queue|
  {
    if r.queue != [] && Dispatchable(r) {
      ReceiveChannel.OrderlyTail(r);
      NumbersGrow(After(r));
    }
  }

  function AsReliable(numbers: seq<nat>): (p: seq<Packet>)
    ensures |p| == |numbers| && forall i :: 0 <= i < |p| ==> p[i] == Reliable(numbers[i])
  {
    if numbers == [] then [] else [Reliable(numbers[0])] + AsReliable(numbers[1..])
  }

  /** Handing over reliable packets keeps the order and leaves the unreliable ones to be looked at again. */
  lemma {:induction false} ReliablePends(base: nat, u: nat, queue: seq<Item>, packets: seq<Packet>, numbers: seq<nat>, next: nat)
    requires Sound(base, u, queue, packets) && numbers != [] && numbers[0] > base && numbers[|numbers| - 1] <= next
    requires forall i, j :: 0 <= i < j < |numbers| ==> numbers[i] < numbers[j]
    requires WindowOf(next) <= WindowOf(base) + 9
    ensures Pending(next, 0, queue, packets + AsReliable(numbers), -1) && forall x :: x in queue ==> Recent(x, next)
  {
    hide AsReliable, Stop, Ordered;
    var after := packets + AsReliable(numbers);
    WindowsApart(base, next);
    forall x | x in queue ensures Fits(x, next, 0) && Recent(x, next) {
      assert Waits(x, base, u);
      WindowsApart(base, x.number);
    }
    forall i, j | 0 <= i < j < |after| && !Loose(after[i]) && !Loose(after[j]) ensures Precedes(after[i], after[j]) {
      if i < |packets| {
        assert Past(packets[i], base, u);
      }
    }
    forall p | p in after ensures Past(p, next, 0) {
      if p in packets { assert Past(p, base, u); }
    }
    assert forall i :: 0 <= i < |queue| ==> queue[i] in queue;
  }

  lemma {:induction false} EmptyQueue(base: nat)
    ensures Stop([], base) == 0 && Left([], base, -1) == []
  {
  }

  /** A queue about to be dispatched: in order, without what was handed over before, and with the command just
      queued behind everything that could go out, unless it can itself. */
  ghost predicate Pending(base: nat, u: nat, queue: seq<Item>, packets: seq<Packet>, queued: int) {
    && Ordered(queue) && (forall x :: x in queue ==> Fits(x, base, u))
    && (forall i :: Stop(queue, base) <= i < |queue| ==> !queue[i].unsequenced)
    && InOrder(packets) && (forall p :: p in packets ==> Past(p, base, u))
    && (0 <= queued < |queue| && !Ready(queue[queued], base) ==>
          queue[queued].number >= base && forall i :: queued < i < Stop(queue, base) ==> !Ready(queue[i], base))
  }

  predicate Fits(x: Item, base: nat, u: nat) {
    || x.unsequenced
    || (WindowOf(base) - 9 <= WindowOf(x.number) < WindowOf(base) + FREE_WINDOWS - 1
        && x.unreliable > 0 && (x.number == base ==> x.unreliable > u))
  }

  /** The ready commands of the first n, handed over in the order of the queue. */
  lemma {:induction false} ReadyInOrder(base: nat, u: nat, queue: seq<Item>, packets: seq<Packet>, n: nat)
    requires Ordered(queue) && (forall x :: x in queue ==> Fits(x, base, u)) && n <= |queue|
    requires InOrder(packets) && forall p :: p in packets ==> Past(p, base, u)
    ensures var v := LastUnreliable(queue[..n], base, u);
            && InOrder(packets + ReadyOnes(queue[..n], base))
            && (forall p :: p in packets + ReadyOnes(queue[..n], base) ==> Past(p, base, v))
            && v >= u
            && forall i :: n <= i < |queue| && !queue[i].unsequenced && queue[i].number == base ==> queue[i].unreliable > v
  {
    if n == 0 {
      assert queue[..0] == [];
      NothingReady(base, u);
      assert packets + [] == packets;
      assert forall i :: 0 <= i < |queue| ==> queue[i] in queue;
    } else {
      hide ReadyOnes, LastUnreliable;
      ReadyInOrder(base, u, queue, packets, n - 1);
      ReadyMore(queue, base, u, n - 1);
      var v := LastUnreliable(queue[..n - 1], base, u);
      var before := packets + ReadyOnes(queue[..n - 1], base);
      assert packets + ReadyOnes(queue[..n], base) == before + if Ready(queue[n - 1], base) then [Unreliable(queue[n - 1])] else [];
      if Ready(queue[n - 1], base) {
        OneMoreInOrder(base, v, before, queue[n - 1]);
        assert queue[n - 1] in queue;
      }
    }
  }

  lemma {:induction false} OneMoreInOrder(base: nat, v: nat, packets: seq<Packet>, x: Item)
    requires InOrder(packets) && forall p :: p in packets ==> Past(p, base, v)
    requires x.unsequenced || (x.number == base && x.unreliable > v)
    ensures InOrder(packets + [Unreliable(x)])
    ensures forall p :: p in packets + [Unreliable(x)] ==> Past(p, base, if x.unsequenced then v else x.unreliable)
  {
    var after := packets + [Unreliable(x)];
    forall i, j | 0 <= i < j < |after| && !Loose(after[i]) && !Loose(after[j]) ensures Precedes(after[i], after[j]) {
      if j == |packets| {
        assert Past(packets[i], base, v);
      }
    }
  }

  /** A dispatch hands packets over in order and leaves only commands that wait. */
  lemma {:induction false} DispatchIsSound(base: nat, u: nat, queue: seq<Item>, packets: seq<Packet>, queued: int)
    requires Pending(base, u, queue, packets, queued)
    ensures var ready := queue[..Stop(queue, base)];
            Sound(base, LastUnreliable(ready, base, u), Left(queue, base, queued), packets + ReadyOnes(ready, base))
  {
    hide ReadyOnes, LastUnreliable, Stop, InOrder, Ordered;
    var stop := Stop(queue, base);
    var v := LastUnreliable(queue[..stop], base, u);
    var left := Left(queue, base, queued);
    ReadyInOrder(base, u, queue, packets, stop);
    forall x | x in left ensures Waits(x, base, v) {
      LeftWaits(base, u, queue, packets, queued, x);
    }
    LeftOrdered(queue, base, queued);
  }

  lemma {:induction false} LeftOrdered(queue: seq<Item>, base: nat, queued: int)
    requires Ordered(queue)
    ensures Ordered(Left(queue, base, queued))
  {
    hide Stop, Spare;
    var d := Spare(queue, Stop(queue, base), base);
    var left := Left(queue, base, queued);
    var e := if 0 <= queued < d && !Ready(queue[queued], base) then 1 else 0;
    assert forall i :: e <= i < |left| ==> left[i] == queue[d + i - e];
  }

  lemma {:induction false} BeyondStop(queue: seq<Item>, base: nat, i: nat)
    requires Ordered(queue) && i < |queue| && forall j :: Stop(queue, base) <= j < |queue| ==> !queue[j].unsequenced
    ensures i >= Stop(queue, base) ==> queue[i].number > base
  {
    hide Stop;
  }

  lemma {:induction false} LeftWaits(base: nat, u: nat, queue: seq<Item>, packets: seq<Packet>, queued: int, x: Item)
    requires Pending(base, u, queue, packets, queued) && x in Left(queue, base, queued)
    ensures Waits(x, base, LastUnreliable(queue[..Stop(queue, base)], base, u))
  {
    hide ReadyOnes, LastUnreliable, Stop, Spare, InOrder, Ordered;
    var stop := Stop(queue, base);
    var d := Spare(queue, stop, base);
    if 0 <= queued < d && !Ready(queue[queued], base) && x == queue[queued] {
      assert queue[queued] in queue;
      NoneReady(queue, base, u, queued, stop);
      ReadyInOrder(base, u, queue, packets, queued);
    } else {
      var i :| d <= i < |queue| && queue[i] == x;
      assert queue[i] in queue;
      assert i >= stop ==> x.number > base by { BeyondStop(queue, base, i); }
      NoneReady(queue, base, u, d, stop);
      ReadyInOrder(base, u, queue, packets, d);
    }
  }

  /** From place n on nothing before `stop` is ready. */
  lemma {:induction false} NoneReady(queue: seq<Item>, base: nat, u: nat, n: nat, stop: nat)
    requires n <= stop <= |queue| && forall i :: n <= i < stop ==> !Ready(queue[i], base)
    ensures LastUnreliable(queue[..stop], base, u) == LastUnreliable(queue[..n], base, u)
    ensures ReadyOnes(queue[..stop], base) == ReadyOnes(queue[..n], base)
    decreases stop
  {
    hide ReadyOnes, LastUnreliable;
    if n < stop {
      NoneReady(queue, base, u, n, stop - 1);
      ReadyMore(queue, base, u, stop - 1);
    }
  }

  lemma {:induction false} NothingReady(base: nat, u: nat)
    ensures ReadyOnes([], base) == [] && LastUnreliable([], base, u) == u
  {
  }

  // Every command is handed over, kept or freed.

  /** The commands a dispatch frees: those before the ones it spares that are neither handed over nor just queued. */
  function Freed(queue: seq<Item>, n: nat, base: nat, queued: int): seq<Item>
    requires n <= |queue|
  {
    if n == 0 then []
    else Freed(queue, n - 1, base, queued) + if !Ready(queue[n - 1], base) && n - 1 != queued then [queue[n - 1]] else []
  }

  /** Each queued command has exactly one fate: none is lost, and the numbers add up. */
  lemma {:induction false} OneFateEach(queue: seq<Item>, base: nat, queued: int)
    ensures var ready, left := ReadyOnes(queue[..Stop(queue, base)], base), Left(queue, base, queued);
            var freed := Freed(queue, Spare(queue, Stop(queue, base), base), base, queued);
            && |queue| == |ready| + |left| + |freed|
            && forall x :: x in queue ==> Unreliable(x) in ready || x in left || x in freed
  {
    hide ReadyOnes, LastUnreliable, Stop, Spare, Freed;
    var stop := Stop(queue, base);
    var d := Spare(queue, stop, base);
    NoneReady(queue, base, 0, d, stop);
    FatesBefore(queue, base, queued, d);
    forall x | x in queue && x !in queue[..d] ensures x in queue[d..] {
      assert queue == queue[..d] + queue[d..];
    }
  }

  lemma {:induction false} FatesBefore(queue: seq<Item>, base: nat, queued: int, n: nat)
    requires n <= |queue|
    ensures var ready, freed := ReadyOnes(queue[..n], base), Freed(queue, n, base, queued);
            var spared := if 0 <= queued < n && !Ready(queue[queued], base) then [queue[queued]] else [];
            && n == |ready| + |freed| + |spared|
            && forall x :: x in queue[..n] ==> Unreliable(x) in ready || x in freed || x in spared
  {
    if n == 0 {
      assert queue[..0] == [];
      NothingReady(base, 0);
    } else {
      hide ReadyOnes;
      FatesBefore(queue, base, queued, n - 1);
      ReadyMore(queue, base, 0, n - 1);
      assert queue[..n] == queue[..n - 1] + [queue[n - 1]];
    }
  }

  /** A command that cannot go is freed unless it was just queued, or is one of the last two before those that wait for
      a later number and incomplete itself, with nothing ready right behind it. */
  lemma {:induction false} FreedExactly(queue: seq<Item>, base: nat, queued: int, i: nat)
    requires Ordered(queue) && i < Stop(queue, base) && !Ready(queue[i], base)
    ensures var stop := Stop(queue, base);
            queue[i] in Freed(queue, Spare(queue, stop, base), base, queued) <==>
            i != queued && (!Incomplete(queue[i], base) || i + 2 < stop || (i + 2 == stop && Ready(queue[i + 1], base)))
  {
    hide Ordered;
    var stop := Stop(queue, base);
    var d := Spare(queue, stop, base);
    if i < d && i != queued {
      FreedHas(queue, d, base, queued, i);
    } else if queue[i] in Freed(queue, d, base, queued) {
      var m := FreedAt(queue, d, base, queued, queue[i]);
      Distinct(queue, i, m);
    }
    if i + 2 == stop && Incomplete(queue[i], base) && !Ready(queue[i + 1], base) { FollowedBy(queue, base, i); }
  }

  lemma {:induction false} FreedAt(queue: seq<Item>, n: nat, base: nat, queued: int, x: Item) returns (m: nat)
    requires n <= |queue| && x in Freed(queue, n, base, queued)
    ensures m < n && queue[m] == x && m != queued && !Ready(x, base)
  {
    if !Ready(queue[n - 1], base) && n - 1 != queued && queue[n - 1] == x { m := n - 1; }
    else { m := FreedAt(queue, n - 1, base, queued, x); }
  }

  lemma {:induction false} Distinct(queue: seq<Item>, i: nat, m: nat)
    requires Ordered(queue) && i < |queue| && m < |queue| && queue[i] == queue[m] && !queue[i].unsequenced
    ensures i == m
  {
  }

  /** Behind an incomplete command under the current number, whatever is not ready and not for later is incomplete. */
  lemma {:induction false} FollowedBy(queue: seq<Item>, base: nat, i: nat)
    requires Ordered(queue) && i + 1 < Stop(queue, base) && Incomplete(queue[i], base) && !Ready(queue[i + 1], base)
    ensures Incomplete(queue[i + 1], base)
  {
    assert !queue[i].unsequenced && !queue[i + 1].unsequenced;
  }

  /** A command that is handed over stands behind this one. */
  ghost predicate Overtaken(queue: seq<Item>, base: nat, i: nat) {
    exists j :: i < j < Stop(queue, base) && Ready(queue[j], base)
  }

  /** What a dispatch frees under the current number, it frees because something behind it was handed over. */
  ghost predicate FreesOnlyOvertaken(queue: seq<Item>, base: nat, queued: int) {
    var freed := Freed(queue, Spare(queue, Stop(queue, base), base), base, queued);
    forall i :: 0 <= i < Stop(queue, base) && Incomplete(queue[i], base) && queue[i] in freed ==> Overtaken(queue, base, i)
  }

  /** That is so if and only if behind the last command handed over there are no incomplete ones but the last two before
      those that wait for a later number, and the one just queued. */
  lemma {:induction false} FreesOnlyOvertakenExactly(queue: seq<Item>, base: nat, queued: int)
    requires Ordered(queue)
    ensures FreesOnlyOvertaken(queue, base, queued) <==>
            forall i :: 0 <= i && i + 2 < Stop(queue, base) && Incomplete(queue[i], base) && i != queued ==> Overtaken(queue, base, i)
  {
    hide Ordered, Freed, Spare, Stop, Overtaken;
    var stop := Stop(queue, base);
    if FreesOnlyOvertaken(queue, base, queued) {
      forall i: nat | i + 2 < stop && Incomplete(queue[i], base) && i != queued ensures Overtaken(queue, base, i) {
        FreedExactly(queue, base, queued, i);
      }
    }
    forall i: nat | i < stop && Incomplete(queue[i], base) && i + 2 >= stop
                    && queue[i] in Freed(queue, Spare(queue, stop, base), base, queued)
      ensures Overtaken(queue, base, i)
    {
      FreedExactly(queue, base, queued, i);
      RightBehind(queue, base, i);
    }
    forall i: nat | i < stop && Incomplete(queue[i], base) && queue[i] in Freed(queue, Spare(queue, stop, base), base, queued)
      ensures i != queued
    {
      FreedExactly(queue, base, queued, i);
    }
  }

  lemma {:induction false} RightBehind(queue: seq<Item>, base: nat, i: nat)
    requires i + 1 < Stop(queue, base) && Ready(queue[i + 1], base)
    ensures Overtaken(queue, base, i)
  {
  }

  /** Of three commands with fragments missing the first is freed though nothing has overtaken it. */
  lemma {:induction false} ThreeWaiting(base: nat, a: Item, b: Item, c: Item)
    requires Incomplete(a, base) && Incomplete(b, base) && Incomplete(c, base)
    ensures Left([a, b, c], base, 2) == [b, c] && Freed([a, b, c], 1, base, 2) == [a]
    ensures ReadyOnes([a, b, c], base) == [] && Stop([a, b, c], base) == 3 && Spare([a, b, c], 3, base) == 1
  {
    var queue := [a, b, c];
    StopAt(queue, base, 3);
    assert queue[..3] == queue;
    NoneReady(queue, base, 0, 0, 3);
    assert queue[..0] == [];
    NothingReady(base, 0);
    assert Freed(queue, 0, base, 2) == [];
    assert queue[1..] == [b, c];
  }

  /** Nothing but the command just queued survives behind one that was handed over. */
  lemma {:induction false} NothingSurvivesBehind(queue: seq<Item>, base: nat, queued: int, i: nat, j: nat)
    requires i < j < Stop(queue, base) && Ready(queue[j], base) && !Ready(queue[i], base) && i != queued
    ensures var d := Spare(queue, Stop(queue, base), base); i < d && queue[i] in Freed(queue, d, base, queued)
  {
    hide Stop, Spare;
    FreedHas(queue, Spare(queue, Stop(queue, base), base), base, queued, i);
  }

  lemma {:induction false} FreedHas(queue: seq<Item>, n: nat, base: nat, queued: int, i: nat)
    requires i < n <= |queue| && !Ready(queue[i], base) && i != queued
    ensures queue[i] in Freed(queue, n, base, queued)
  {
    if i < n - 1 { FreedHas(queue, n - 1, base, queued, i); }
  }
}
