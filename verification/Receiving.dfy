/** The receiving side of one reliable channel, on unbounded sequence numbers. */
module Receiving {
  import opened Carryless
  import opened Fragmentation
  import opened Windows

  /** A reliable command with its payload. Its numbers are 16 bits on the wire and unbounded once resolved. */
  datatype Message =
    | Whole(number: nat, data: seq<Byte>)
    | Piece(number: nat, start: nat, count: nat, index: nat, offset: nat, total: nat, data: seq<Byte>)

  /** A queued command; `count` is 0 for a packet that came whole. */
  datatype Incoming = Incoming(number: nat, count: nat, remaining: nat, arrived: seq<bool>, data: seq<Byte>)

  /** Every number up to `base` has been dispatched. */
  datatype Receiver = Receiver(base: nat, queue: seq<Incoming>, dispatched: seq<seq<Byte>>)

  const MAXIMUM_FRAGMENT_COUNT := 1024 * 1024

  function Span(x: Incoming): nat { if x.count > 0 then x.count else 1 }

  /** What a receiver at `base` takes a wire message to be. */
  function Resolved(base: nat, m: Message): Message {
    match m
    case Whole(n, data) => Whole(Resolve(base, n), data)
    case Piece(n, start, count, index, offset, total, data) =>
      Piece(Resolve(base, n), Resolve(base, start), count, index, offset, total, data)
  }

  predicate TooFar(base: nat, n: nat) { WindowOf(n) - WindowOf(base) >= FREE_WINDOWS - 1 }

  /** The two windows in which a number is not acknowledged. */
  predicate Acknowledges(base: nat, n: nat) {
    !(FREE_WINDOWS - 1 <= WindowOf(n) - WindowOf(base) <= FREE_WINDOWS)
  }

  function Place(queue: seq<Incoming>, x: Incoming): (q: seq<Incoming>)
    ensures |q| == |queue| + 1
  {
    if queue == [] || queue[|queue| - 1].number < x.number then queue + [x]
    else Place(queue[..|queue| - 1], x) + [queue[|queue| - 1]]
  }

  /** The position of `number`, or |queue|. */
  function Find(queue: seq<Incoming>, number: nat): (k: nat)
    ensures k <= |queue| && (k < |queue| ==> queue[k].number == number)
    ensures k == |queue| ==> forall a :: 0 <= a < |queue| ==> queue[a].number != number
  {
    if queue == [] then 0
    else if queue[|queue| - 1].number == number then |queue| - 1
    else var k := Find(queue[..|queue| - 1], number); if k == |queue| - 1 then |queue| else k
  }

  function Dispatch(r: Receiver): Receiver
    decreases |r.queue|
  {
    if r.queue != [] && Dispatchable(r) then
      Dispatch(Receiver(r.base + Span(r.queue[0]), r.queue[1..], r.dispatched + [r.queue[0].data]))
    else r
  }

  predicate Dispatchable(r: Receiver)
    requires r.queue != []
  {
    r.queue[0].remaining == 0 && r.queue[0].number == r.base + 1
  }

  /** The buffer malloc returns: its contents stand for anything. */
  function Blank(n: nat): (b: seq<Byte>)
    ensures |b| == n
  {
    if n == 0 then [] else [0] + Blank(n - 1)
  }

  function Fresh(m: Message): Incoming
    requires m.Piece?
  {
    Incoming(m.start, m.count, m.count, NoneArrived(m.count), Blank(m.total))
  }

  function Marked(x: Incoming, m: Message): Incoming
    requires m.Piece? && m.offset + |m.data| <= |x.data|
  {
    if m.index >= |x.arrived| || x.arrived[m.index] || x.remaining == 0 then x
    else x.(remaining := x.remaining - 1, arrived := x.arrived[m.index := true], data := Put(x.data, m.offset, m.data))
  }

  datatype Outcome = Taken(receiver: Receiver) | Refused

  /** A resolved message arrives. `full` says that maximumWaitingData is reached, `limit` is maximumPacketSize. */
  function Arrive(r: Receiver, m: Message, limit: nat, full: bool): Outcome {
    match m
    case Whole(n, data) =>
      if |data| > limit then Refused
      else if TooFar(r.base, n) || n == r.base || Find(r.queue, n) < |r.queue| then Taken(r)
      else if full then Refused
      else Taken(Dispatch(r.(queue := Place(r.queue, Incoming(n, 0, 0, [], data)))))
    case Piece(n, start, count, index, offset, total, data) =>
      if |data| == 0 || |data| > limit then Refused
      else if TooFar(r.base, start) then Taken(r)
      else if count > MAXIMUM_FRAGMENT_COUNT || index >= count || total > limit || total < count || offset >= total
              || |data| > total - offset then Refused
      else
        var k := Find(r.queue, start);
        if k == |r.queue| then
          if start == r.base || full then Refused
          else Taken(Dispatch(r.(queue := Place(r.queue, Marked(Fresh(m), m)))))
        else if r.queue[k].count == 0 || total != |r.queue[k].data| || count != r.queue[k].count then Refused
        else Taken(Dispatch(r.(queue := r.queue[k := Marked(r.queue[k], m)])))
  }

  /** Numbers increase along the queue and do not overlap. */
  ghost predicate Sorted(queue: seq<Incoming>) {
    forall a, b :: 0 <= a < b < |queue| ==> queue[a].number < queue[b].number
  }

  /** Where a new command goes in a sorted queue: the backwards search of the source. */
  lemma {:induction false} PlaceAt(queue: seq<Incoming>, x: Incoming, k: nat)
    requires k <= |queue|
    requires forall a :: k <= a < |queue| ==> queue[a].number > x.number
    requires k > 0 ==> queue[k - 1].number < x.number
    ensures Place(queue, x) == queue[..k] + [x] + queue[k..]
    decreases |queue|
  {
    if k < |queue| {
      var shorter := queue[..|queue| - 1];
      PlaceAt(shorter, x, k);
      assert shorter[..k] == queue[..k];
      assert shorter[k..] + [queue[|queue| - 1]] == queue[k..];
    }
  }

  /** Placing an unused number keeps the queue sorted and adds just that command. */
  lemma {:induction false} PlaceSorts(queue: seq<Incoming>, x: Incoming) returns (k: nat)
    requires Sorted(queue) && Find(queue, x.number) == |queue|
    ensures k <= |queue| && Place(queue, x) == queue[..k] + [x] + queue[k..] && Sorted(Place(queue, x))
  {
    k := |queue|;
    while k > 0 && queue[k - 1].number > x.number
      invariant k <= |queue| && forall a :: k <= a < |queue| ==> queue[a].number > x.number
    {
      k := k - 1;
    }
    PlaceAt(queue, x, k);
  }
}
