/** What a datagram holds, and which commands can be packed into one. */
module Packing {
  import opened Windows
  import opened SendQueues
  import opened Matching
  import opened Carryless
  import opened Commands
  import Datagram

  /** The channel number of commands that belong to no channel. */
  const PEER_CHANNEL := 0xFF

  const MAXIMUM_PACKET_COMMANDS := 32
  const BUFFERS := 1 + 2 * MAXIMUM_PACKET_COMMANDS
  const HEADER := 4
  const ACKNOWLEDGE_SIZE := 8
  const THROTTLE_SCALE := 32
  const THROTTLE_COUNTER := 7

  const PING_SIZE := 4

  datatype Acknowledgement = Acknowledgement(channel: Byte, sequence: Short, sentTime: Short)

  /** What a datagram carries. */
  datatype Entry = Ack(acknowledgement: Acknowledgement) | Command(command: Outgoing)

  function Acks(s: seq<Acknowledgement>): (entries: seq<Entry>)
    ensures |entries| == |s| && forall k :: 0 <= k < |s| ==> entries[k] == Ack(s[k])
  {
    if s == [] then [] else [Ack(s[0])] + Acks(s[1..])
  }

  function EntrySize(e: Entry): nat {
    match e
    case Ack(_) => ACKNOWLEDGE_SIZE
    case Command(c) => SizeOf(c.kind) + if c.packet then c.length else 0
  }

  function TotalSize(entries: seq<Entry>): nat {
    if entries == [] then 0 else TotalSize(entries[..|entries| - 1]) + EntrySize(entries[|entries| - 1])
  }

  lemma {:induction false} OneMore(entries: seq<Entry>, e: Entry)
    ensures TotalSize(entries + [e]) == TotalSize(entries) + EntrySize(e)
  {
    assert (entries + [e])[..|entries|] == entries;
  }

  /** A command as `enet_peer_send` and the others make it: what it is goes with whether it carries a packet and asks for an
      acknowledgement, and its channel and length fit their fields. */
  predicate WellMade(c: Outgoing) {
    && (c.packet ==> c.channel < PEER_CHANNEL && c.length < 0x10000)
    && match c.kind
       case Control(number, body) =>
         && !c.packet && c.length == 0 && c.channel == PEER_CHANNEL
         && Datagram.Size(number) == 4 + |body| && !Datagram.Carries(number)
       case SendReliable => c.packet && c.acknowledge && c.offset == 0
       case SendUnreliable => c.packet && !c.acknowledge && c.offset == 0
       case SendUnsequenced(group) => c.packet && !c.acknowledge && c.offset == 0 && group < SPAN
       case SendFragment(start, _, _, _) => c.packet && c.acknowledge && start < SPAN
       case SendUnreliableFragment(start, _, _, _) => c.packet && !c.acknowledge && start < SPAN
  }

  /** What can be put on the wire. */
  ghost predicate AllFramable(entries: seq<Entry>) {
    forall e :: e in entries && e.Command? ==> WellMade(e.command)
  }

  lemma {:induction false} OneMoreFramable(entries: seq<Entry>, e: Entry)
    requires AllFramable(entries) && (e.Command? ==> WellMade(e.command))
    ensures AllFramable(entries + [e])
  {
  }

  /** What one datagram may hold. */
  ghost predicate Within(entries: seq<Entry>, mtu: nat) {
    |entries| <= MAXIMUM_PACKET_COMMANDS && HEADER + TotalSize(entries) <= mtu && AllFramable(entries)
  }

  /** A command would be one too many for a datagram, or make it longer than the mtu. */
  predicate NoRoom(entries: seq<Entry>, c: Outgoing, mtu: nat) {
    |entries| >= 32 || 4 + TotalSize(entries) + SizeOf(c.kind) + c.length > mtu
  }

  lemma {:induction false} NothingWithin(entries: seq<Entry>, mtu: nat)
    requires Within(entries, mtu)
    ensures Within([], mtu)
  {
  }

  /** A command that fits a datagram of its own: what the sender cuts packets for. */
  predicate FitsAlone(c: Outgoing, mtu: nat) {
    WellMade(c) && SizeOf(c.kind) + c.length + HEADER <= mtu
  }

  /** A ping, before it has its number. */
  const PING := Outgoing(PEER_CHANNEL, 0, 0, true, false, Control(5, []), 0, 0, 0, 0, 0, 0)

  ghost predicate AllFit(q: Queues, mtu: nat) {
    && (forall c :: c in q.sent ==> FitsAlone(c, mtu))
    && (forall c :: c in q.outgoing ==> FitsAlone(c, mtu))
    && forall c :: c in q.reliable ==> FitsAlone(c, mtu)
  }

  function CommandsOf(s: seq<Outgoing>): (entries: seq<Entry>)
    ensures |entries| == |s| && forall k :: 0 <= k < |s| ==> entries[k] == Command(s[k])
  {
    if s == [] then [] else CommandsOf(s[..|s| - 1]) + [Command(s[|s| - 1])]
  }

  lemma {:induction false} OneMoreCommand(s: seq<Outgoing>, c: Outgoing)
    ensures CommandsOf(s + [c]) == CommandsOf(s) + [Command(c)]
  {
    assert (s + [c])[..|s|] == s;
  }

  lemma {:induction false} NothingPacked()
    ensures TotalSize([]) == 0 && CommandsOf([]) == []
  {
  }

  /** The same sequence numbers, as the 16 bits the source compares. */
  predicate SameNumbers(c: Outgoing, d: Outgoing) {
    Wire(c.number) == Wire(d.number) && c.unreliable == d.unreliable
  }

  lemma {:induction false} SameAsItself(c: Outgoing)
    ensures SameNumbers(c, c)
  {
  }

  lemma {:induction false} SameAsOther(c: Outgoing, d: Outgoing, e: Outgoing)
    requires SameNumbers(c, d) && SameNumbers(c, e)
    ensures SameNumbers(d, e)
  {
  }

  /** What follows an unreliable packet with the same numbers carries an unreliable packet too: more of it, or another one. */
  predicate RunsCarryPackets(s: seq<Outgoing>) {
    forall k :: 0 < k < |s| && s[k - 1].packet && !s[k - 1].acknowledge && SameNumbers(s[k - 1], s[k]) ==>
      s[k].packet && !s[k].acknowledge
  }

  /** The commands dropped with the head of the list when it is throttled: those behind it with its numbers. */
  function RunLength(s: seq<Outgoing>): (n: nat)
    requires s != []
    ensures 0 < n <= |s| && (forall k :: 0 <= k < n ==> SameNumbers(s[0], s[k]))
    ensures n < |s| ==> !SameNumbers(s[0], s[n])
  {
    if |s| == 1 || !SameNumbers(s[0], s[1]) then 1 else 1 + RunLength(s[1..])
  }

  lemma {:induction false} RunLengthIs(s: seq<Outgoing>, n: nat)
    requires s != [] && 0 < n <= |s| && (forall k :: 0 <= k < n ==> SameNumbers(s[0], s[k]))
    requires n < |s| ==> !SameNumbers(s[0], s[n])
    ensures n == RunLength(s)
  {
    if n > 1 {
      assert SameNumbers(s[0], s[1]);
      RunLengthIs(s[1..], n - 1);
    }
  }

  /** The first command of a packet. */
  predicate StartsPacket(c: Outgoing) { c.packet && c.offset == 0 }

  /** No unreliable packet stands right behind another with the same numbers. */
  predicate RunsOfOnePacket(s: seq<Outgoing>) {
    forall k :: 0 < k < |s| && s[k - 1].packet && !s[k - 1].acknowledge && SameNumbers(s[k - 1], s[k]) ==> !StartsPacket(s[k])
  }

  /** Then what is dropped with a throttled packet is the rest of that packet. */
  lemma {:induction false} DropsOnePacket(s: seq<Outgoing>, k: nat)
    requires s != [] && s[0].packet && !s[0].acknowledge && RunsCarryPackets(s) && RunsOfOnePacket(s) && 0 < k < RunLength(s)
    ensures s[k].packet && !s[k].acknowledge && !StartsPacket(s[k])
  {
    hide SameNumbers, StartsPacket;
    if k > 1 {
      DropsOnePacket(s, k - 1);
    } else {
      SameAsItself(s[0]);
    }
    SameAsOther(s[0], s[k - 1], s[k]);
  }

  /** Queueing a command keeps it so, unless the command starts an unreliable packet that carries the numbers of the one in
      front of it. */
  lemma {:induction false} QueuedApart(q: Queues, c: Outgoing)
    requires RunsOfOnePacket(q.outgoing)
    ensures var s := q.outgoing;
            RunsOfOnePacket(Queued(q, c).outgoing) <==>
            (c.acknowledge && c.packet)
            || !(StartsPacket(c) && s != [] && s[|s| - 1].packet && !s[|s| - 1].acknowledge && SameNumbers(s[|s| - 1], c))
  {
    hide SameNumbers, StartsPacket;
    var s, t := q.outgoing, Queued(q, c).outgoing;
    if !(c.acknowledge && c.packet) {
      assert t == s + [c] && forall k :: 0 <= k < |s| ==> t[k] == s[k];
      if s != [] {
        assert t[|s|] == c && t[|s| - 1] == s[|s| - 1];
      }
    }
  }

  /** Two unsequenced packets in a row are one run, and so are the first unreliable packets of two channels: if the first
      is throttled, both are dropped. */
  lemma {:induction false} DropsTwoPackets(c: Outgoing, d: Outgoing)
    requires StartsPacket(c) && StartsPacket(d) && !c.acknowledge && !d.acknowledge
    requires c.number == d.number && c.unreliable == d.unreliable
    ensures RunLength([c, d]) == 2 && !RunsOfOnePacket([c, d])
  {
    assert [c, d][1..] == [d];
    assert SameNumbers([c, d][0], [c, d][1]);
  }

  lemma {:induction false} RunsSuffix(s: seq<Outgoing>, a: nat)
    requires RunsCarryPackets(s) && a <= |s|
    ensures RunsCarryPackets(s[a..])
  {
  }

  /** A command without a packet that would be dropped along with the packet queued before it. */
  predicate JoinsRun(s: seq<Outgoing>, c: Outgoing) {
    !c.packet && s != [] && s[|s| - 1].packet && !s[|s| - 1].acknowledge && SameNumbers(s[|s| - 1], c)
  }

  /** Exactly those commands spoil the runs. */
  lemma {:induction false} QueuedSendable(q: Queues, c: Outgoing, mtu: nat)
    requires AllFit(q, mtu) && RunsCarryPackets(q.outgoing) && FitsAlone(c, mtu)
    ensures AllFit(Queued(q, c), mtu)
    ensures RunsCarryPackets(Queued(q, c).outgoing) <==> (c.acknowledge && c.packet) || !JoinsRun(q.outgoing, c)
  {
    hide FitsAlone, SameNumbers;
    var s, t := q.outgoing, Queued(q, c).outgoing;
    if !(c.acknowledge && c.packet) {
      assert t == s + [c] && forall k :: 0 <= k < |s| ==> t[k] == s[k];
      if s != [] {
        assert t[|s|] == c && t[|s| - 1] == s[|s| - 1];
      }
    }
  }

  /** Commands put back stay sendable: a reliable one before an unreliable run does not join it. */
  lemma {:induction false} ReturnedSendable(q: Queues, k: nat, p: nat, mtu: nat)
    requires k < |q.sent| && SendQueues.Bytes(q.sent) == q.transit && q.sent[k].acknowledge
    requires var list := if q.sent[k].packet then q.reliable else q.outgoing;
             p <= |list| && AllAttempted(list[..p])
    requires AllFit(q, mtu) && RunsCarryPackets(q.outgoing)
    ensures AllFit(Returned(q, k, p), mtu) && RunsCarryPackets(Returned(q, k, p).outgoing)
  {
    hide Keys, SendQueues.Bytes, Unsent, Inserted, RunsCarryPackets, Without;
    var c := q.sent[k].(timeout := q.sent[k].timeout * 2);
    WithoutOne(q.sent, k);
    assert FitsAlone(q.sent[k], mtu);
    if c.packet {
      InsertedOne(q.reliable, p, c);
    } else {
      InsertedOne(q.outgoing, p, c);
      InsertedRuns(q.outgoing, p, c);
    }
  }

  lemma {:induction false} InsertedRuns(s: seq<Outgoing>, p: nat, c: Outgoing)
    requires p <= |s| && AllAttempted(s[..p]) && c.acknowledge && RunsCarryPackets(s)
    ensures RunsCarryPackets(Inserted(s, p, c))
  {
    hide SameNumbers;
    var t := Inserted(s, p, c);
    assert forall b :: 0 <= b < p ==> t[b] == s[b] && s[b] in s[..p];
    forall a | 0 < a < |t| && t[a - 1].packet && !t[a - 1].acknowledge && SameNumbers(t[a - 1], t[a])
      ensures t[a].packet && !t[a].acknowledge
    {
      assert a > p ==> t[a] == s[a - 1] && (a - 1 == p || t[a - 1] == s[a - 2]);
    }
  }

  /** Transmitted commands wait in front, so that taking one out joins no runs. */
  lemma {:induction false} TakesSendable(q: Queues, r: Queues, p: Place, c: Outgoing, last: seq<nat>, mtu: nat)
    requires Ok(q, last) && Takes(q, r, p, c) && AllFit(q, mtu) && RunsCarryPackets(q.outgoing)
    ensures AllFit(r, mtu) && RunsCarryPackets(r.outgoing)
  {
    hide Keys, SendQueues.Bytes, Unsent, FitsAlone, Distinct, WindowsAgree, ChannelOk, Shaped;
    WithoutOne(At(q, p), p.k);
    if p.InOutgoing? {
      WithoutRuns(q.outgoing, p.k);
    }
  }

  lemma {:induction false} WithoutRuns(s: seq<Outgoing>, k: nat)
    requires k < |s| && AttemptedFirst(s) && s[k].acknowledge && s[k].attempts > 0 && RunsCarryPackets(s)
    ensures RunsCarryPackets(Without(s, k))
  {
    hide SameNumbers;
    var t := Without(s, k);
    forall a | 0 < a < |t| && t[a - 1].packet && !t[a - 1].acknowledge && SameNumbers(t[a - 1], t[a])
      ensures t[a].packet && !t[a].acknowledge
    {
      assert t[a - 1] == s[if a - 1 < k then a - 1 else a] && t[a] == s[if a < k then a else a + 1];
    }
  }

  /** What is left after the heads of the lists have gone can still be sent. */
  lemma {:induction false} SendableAfter(q: Queues, fromReliable: bool, now: nat, timeout: nat, mtu: nat)
    requires AllFit(q, mtu) && RunsCarryPackets(q.outgoing)
    requires if fromReliable then q.reliable != [] else q.outgoing != []
    ensures var r := Sent(q, fromReliable, now, timeout); AllFit(r, mtu) && RunsCarryPackets(r.outgoing)
  {
    hide RunsCarryPackets;
    var c := if fromReliable then q.reliable[0] else q.outgoing[0];
    assert FitsAlone(c, mtu) && FitsAlone(Transmitted(c, now, timeout), mtu);
    if !fromReliable { RunsSuffix(q.outgoing, 1); }
  }

  lemma {:induction false} SendableSuffix(q: Queues, n: nat, mtu: nat)
    requires AllFit(q, mtu) && RunsCarryPackets(q.outgoing) && n <= |q.outgoing|
    ensures var r := q.(outgoing := q.outgoing[n..]); AllFit(r, mtu) && RunsCarryPackets(r.outgoing)
  {
    hide RunsCarryPackets, FitsAlone;
    RunsSuffix(q.outgoing, n);
  }
}
