/** The numbers commands are given. */
module Queueing {
  import opened Fragmentation
  import opened Windows
  import opened SendQueues
  import opened Commands
  import opened Packing

  const MAXIMUM_FRAGMENTS := 0x100000
  const FRAGMENT_SIZE := 24

  /** For each channel the last number given to a packet, for commands of no channel the last number given, and for
      each channel the unreliable number. */
  datatype Counters = Counters(issued: seq<nat>, peer: nat, unreliable: seq<nat>)

  /** Command c got its numbers from the counters. */
  predicate Given(before: Counters, after: Counters, c: Outgoing) {
    if !c.packet then c.number == before.peer + 1 && c.unreliable == 0 && after == before.(peer := c.number)
    else if c.channel >= |before.issued| || c.channel >= |before.unreliable| then false
    else if c.acknowledge then
      && c.number == before.issued[c.channel] + 1 && c.unreliable == 0
      && after == before.(issued := before.issued[c.channel := c.number], unreliable := before.unreliable[c.channel := 0])
    else if c.kind.SendUnsequenced? then c.number == 0 && c.unreliable == 0 && after == before
    else
      && c.number == before.issued[c.channel]
      && c.unreliable == (if c.offset == 0 then (before.unreliable[c.channel] + 1) % SPAN else before.unreliable[c.channel])
      && after == before.(unreliable := before.unreliable[c.channel := c.unreliable])
  }

  /** An unsequenced packet gets the number of its group. */
  function NumberedKind(draft: Outgoing, group: nat): Kind {
    if draft.packet && !draft.acknowledge && draft.kind.SendUnsequenced? then Kind.SendUnsequenced(group) else draft.kind
  }

  /** Every unsequenced packet has a group of its own. */
  function NextGroup(draft: Outgoing, group: nat): nat {
    if draft.packet && !draft.acknowledge && draft.kind.SendUnsequenced? then (group + 1) % 0x1_0000 else group
  }

  /** A sequenced packet, or its first fragment, gets numbers behind all those given on its channel before: a later reliable
      number, or the same and a later unreliable one. Those are the ones the next packet gets numbers behind. */
  lemma {:induction false} GivenAhead(before: Counters, after: Counters, c: Outgoing)
    requires Given(before, after, c) && c.packet && c.channel < |before.issued| == |before.unreliable|
    requires !c.kind.SendUnsequenced? && c.offset == 0 && (c.acknowledge || before.unreliable[c.channel] < 0xFFFF)
    ensures |after.unreliable| == |after.issued| == |before.issued|
    ensures before.issued[c.channel] < c.number
            || (before.issued[c.channel] == c.number && before.unreliable[c.channel] < c.unreliable)
    ensures after.issued[c.channel] == c.number && after.unreliable[c.channel] == c.unreliable
    ensures forall ch :: 0 <= ch < |before.issued| && ch != c.channel ==>
              after.issued[ch] == before.issued[ch] && after.unreliable[ch] == before.unreliable[ch]
  {
  }

  /** No number is later than the last one given. */
  ghost predicate Bounded(waiting: multiset<(nat, nat)>, counters: Counters) {
    forall k :: k in waiting ==>
      if k.0 < |counters.issued| then k.1 <= counters.issued[k.0] else k.0 == PEER_CHANNEL && k.1 <= counters.peer
  }

  /** A number just given is new, and bounds those given before. */
  lemma {:induction false} NumberIsNew(q: Queues, before: Counters, after: Counters, c: Outgoing)
    requires Bounded(Waiting(q), before) && Given(before, after, c) && q.issued == before.issued
    requires |q.issued| == |q.inFlight| <= PEER_CHANNEL && c.attempts == 0
    requires if c.packet then c.channel < |q.issued| else c.channel == PEER_CHANNEL && c.length == 0
    ensures New(q, c) && Bounded(Waiting(q) + KeyOf(c), after) && Queued(q, c).issued == after.issued
  {
    hide Keys, Waiting;
    assert c.acknowledge ==> Key(c) !in Waiting(q);
  }

  lemma {:induction false} NumberedFits(draft: Outgoing, c: Outgoing, group: nat, mtu: nat)
    requires c.kind == NumberedKind(draft, group) && group < SPAN
    requires c == draft.(number := c.number, unreliable := c.unreliable, kind := c.kind, queueTime := c.queueTime)
    ensures FitsAlone(draft, mtu) ==> FitsAlone(c, mtu)
  {
  }

  function QueuedAll(q: Queues, cs: seq<Outgoing>): Queues {
    if cs == [] then q else Queued(QueuedAll(q, cs[..|cs| - 1]), cs[|cs| - 1])
  }

  lemma {:induction false} OneMoreQueued(q: Queues, cs: seq<Outgoing>, c: Outgoing)
    ensures QueuedAll(q, cs + [c]) == Queued(QueuedAll(q, cs), c)
  {
    assert (cs + [c])[..|cs|] == cs;
  }

  /** The counters of a peer and its channels. */
  class Numbering {
    /** The numbers given; the source keeps 16 bits of them. */
    var issued: seq<nat>
    var peerIssued: nat

    var outgoingReliableSequenceNumber: nat
    var reliableNumbers: seq<nat>
    var unreliableNumbers: seq<nat>
    var outgoingUnsequencedGroup: nat

    /** The channels of `enet_host_connect`, and the counters of `enet_peer_reset`. */
    constructor (channelCount: nat)
      requires channelCount <= PEER_CHANNEL
      ensures Counting(channelCount) && Numbers() == Counters(Fresh(channelCount).issued, 0, Fresh(channelCount).issued)
    {
      issued, peerIssued := Fresh(channelCount).issued, 0;
      outgoingReliableSequenceNumber, reliableNumbers, unreliableNumbers := 0, issued, issued;
      outgoingUnsequencedGroup := 0;
    }

    ghost function Numbers(): Counters
      reads this
    {
      Counters(issued, peerIssued, unreliableNumbers)
    }

    /** The 16-bit counters follow the numbers given. */
    ghost predicate Counting(channelCount: nat)
      reads this
    {
      && |reliableNumbers| == |unreliableNumbers| == |issued| == channelCount <= PEER_CHANNEL
      && outgoingReliableSequenceNumber == Wire(peerIssued) && outgoingUnsequencedGroup < SPAN
      && forall ch :: 0 <= ch < |issued| ==> reliableNumbers[ch] == Wire(issued[ch]) && unreliableNumbers[ch] < SPAN
    }

    /** The first half of `enet_peer_setup_outgoing_command`: the command gets its numbers. */
    method Number(draft: Outgoing) returns (c: Outgoing)
      requires Counting(|issued|) && (if draft.packet then draft.channel < |issued| else draft.channel == PEER_CHANNEL)
      modifies this
      ensures Counting(old(|issued|)) && Given(old(Numbers()), Numbers(), c)
      ensures c == draft.(number := c.number, unreliable := c.unreliable, kind := c.kind)
      ensures c.kind == NumberedKind(draft, outgoingUnsequencedGroup) && outgoingUnsequencedGroup < SPAN
      ensures outgoingUnsequencedGroup == NextGroup(draft, old(outgoingUnsequencedGroup))
    {
      var ch := draft.channel;
      if ch == PEER_CHANNEL {
        outgoingReliableSequenceNumber := (outgoingReliableSequenceNumber + 1) % SPAN;
        peerIssued := peerIssued + 1;
        c := draft.(number := peerIssued, unreliable := 0);
      } else if draft.acknowledge {
        reliableNumbers := reliableNumbers[ch := (reliableNumbers[ch] + 1) % SPAN];
        unreliableNumbers := unreliableNumbers[ch := 0];
        issued := issued[ch := issued[ch] + 1];
        c := draft.(number := issued[ch], unreliable := 0);
      } else if draft.kind.SendUnsequenced? {
        outgoingUnsequencedGroup := (outgoingUnsequencedGroup + 1) % SPAN;
        c := draft.(number := 0, unreliable := 0, kind := Kind.SendUnsequenced(outgoingUnsequencedGroup));
      } else {
        c := NumberUnreliable(draft);
      }
    }

    /** The first fragment of an unreliable packet, or the packet itself, takes the next unreliable number. */
    method NumberUnreliable(draft: Outgoing) returns (c: Outgoing)
      requires Counting(|issued|) && draft.packet && draft.channel < |issued| && !draft.acknowledge && !draft.kind.SendUnsequenced?
      modifies this`unreliableNumbers
      ensures Counting(old(|issued|)) && Given(old(Numbers()), Numbers(), c)
      ensures c == draft.(number := c.number, unreliable := c.unreliable)
    {
      var ch := draft.channel;
      if draft.offset == 0 {
        unreliableNumbers := unreliableNumbers[ch := (unreliableNumbers[ch] + 1) % SPAN];
      }
      assert unreliableNumbers == unreliableNumbers[ch := unreliableNumbers[ch]];
      c := draft.(number := issued[ch], unreliable := unreliableNumbers[ch]);
    }
  }

  /** What `enet_peer_send` does not take. */
  predicate Refused(connected: bool, ch: nat, channelCount: nat, dataLength: nat, maximumPacketSize: nat, piece: nat)
    requires 0 < piece
  {
    || !connected || ch >= channelCount || dataLength > maximumPacketSize
    || (dataLength > piece && PieceCount(dataLength, piece) > MAXIMUM_FRAGMENTS)
  }

  /** A packet has too many fragments exactly if it is longer than so many of them. */
  lemma {:induction false} TooManyFragments(dataLength: nat, piece: nat)
    requires 0 < piece
    ensures PieceCount(dataLength, piece) > MAXIMUM_FRAGMENTS <==> dataLength > piece * 0x10_0000
    ensures dataLength > piece * 0x10_0000 ==> dataLength > piece
  {
    hide PieceCount;
    CountBounds(dataLength, piece, MAXIMUM_FRAGMENTS);
  }

  lemma {:induction false} NothingQueued(q: Queues)
    ensures QueuedAll(q, []) == q
  {
  }

  lemma {:induction false} ProgressStarts(counters: Counters, ch: nat, acknowledge: bool)
    requires ch < |counters.issued| && ch < |counters.unreliable|
    ensures Progress(counters, counters, ch, 0, acknowledge)
  {
  }

  predicate WholePacket(c: Outgoing, ch: nat, dataLength: nat) {
    c.channel == ch && c.packet && c.offset == 0 && c.length == dataLength && c.attempts == 0
  }

  /** What the command of a packet that is not cut is, by the flags of the packet and the unreliable number before it. */
  predicate WholeKind(c: Outgoing, reliable: bool, unsequenced: bool, unreliable: nat, group: nat) {
    if unsequenced && !reliable then c.kind == Kind.SendUnsequenced(group) && !c.acknowledge
    else if reliable || unreliable == SPAN - 1 then c.kind == Kind.SendReliable && c.acknowledge
    else c.kind == Kind.SendUnreliable && !c.acknowledge
  }

  /** The number that names a packet in its fragments. */
  function StartNumber(before: Counters, ch: nat, acknowledge: bool): nat
    requires ch < |before.issued| && ch < |before.unreliable|
  {
    if acknowledge then Wire(before.issued[ch] + 1) else before.unreliable[ch] + 1
  }

  function FragmentKind(start: nat, count: nat, index: nat, total: nat, acknowledge: bool): Kind {
    if acknowledge then Kind.SendFragment(start, count, index, total) else Kind.SendUnreliableFragment(start, count, index, total)
  }

  /** Fragment i of a packet: a part of its own, and, if it is to be acknowledged, a number of its own; otherwise all
      fragments have the same numbers. */
  predicate FragmentOf(c: Outgoing, i: nat, before: Counters, ch: nat, dataLength: nat, piece: nat, acknowledge: bool)
    requires ch < |before.issued| && ch < |before.unreliable| && 0 < piece
  {
    && c.kind == FragmentKind(StartNumber(before, ch, acknowledge), PieceCount(dataLength, piece), i, dataLength, acknowledge)
    && i * piece < dataLength && c.offset == PieceAt(dataLength, piece, i).offset
    && c.length == PieceAt(dataLength, piece, i).length
    && c.channel == ch && c.packet && c.acknowledge == acknowledge && c.attempts == 0
    && if acknowledge then c.number == before.issued[ch] + 1 + i && c.unreliable == 0
       else c.number == before.issued[ch] && c.unreliable == before.unreliable[ch] + 1
  }

  /** All fragments of a packet, and the counters they leave. */
  predicate CutPacket(cs: seq<Outgoing>, before: Counters, after: Counters, ch: nat, dataLength: nat, piece: nat, acknowledge: bool)
    requires 0 < piece
  {
    && ch < |before.issued| && ch < |before.unreliable| && |cs| == PieceCount(dataLength, piece)
    && Progress(before, after, ch, |cs|, acknowledge)
    && forall i :: 0 <= i < |cs| ==> FragmentOf(cs[i], i, before, ch, dataLength, piece, acknowledge)
  }

  /** The counters once n fragments of a packet have got their numbers. */
  function Counted(before: Counters, ch: nat, n: nat, acknowledge: bool): Counters
    requires ch < |before.issued| && ch < |before.unreliable|
  {
    if n == 0 then before
    else if acknowledge then
      before.(issued := before.issued[ch := before.issued[ch] + n], unreliable := before.unreliable[ch := 0])
    else before.(unreliable := before.unreliable[ch := before.unreliable[ch] + 1])
  }

  predicate Progress(before: Counters, now: Counters, ch: nat, n: nat, acknowledge: bool) {
    ch < |before.issued| && ch < |before.unreliable| && now == Counted(before, ch, n, acknowledge)
  }

  lemma {:induction false} FragmentNumbered(start: Counters, before: Counters, after: Counters, c: Outgoing, n: nat, ch: nat,
                                            dataLength: nat, piece: nat, acknowledge: bool)
    requires Progress(start, before, ch, n, acknowledge) && Given(before, after, c)
    requires 0 < piece && n * piece < dataLength && (!acknowledge ==> start.unreliable[ch] < SPAN - 1)
    requires c.channel == ch && c.packet && c.acknowledge == acknowledge && c.attempts == 0
    requires c.kind == FragmentKind(StartNumber(start, ch, acknowledge), PieceCount(dataLength, piece), n, dataLength, acknowledge)
    requires c.offset == PieceAt(dataLength, piece, n).offset && c.length == PieceAt(dataLength, piece, n).length
    ensures Progress(start, after, ch, n + 1, acknowledge)
    ensures FragmentOf(c, n, start, ch, dataLength, piece, acknowledge)
  {
    if n > 0 { Scaled(1, n, piece); }
  }
}
