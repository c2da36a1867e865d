/** The sending side of a peer: commands queued, acknowledgements taken, timeouts, and filling datagrams. */
module Sending {
  import opened Fragmentation
  import opened Windows
  import opened Delivery
  import opened SendQueues
  import opened Matching
  import opened Packing
  import opened Queueing
  import opened Timeouts
  import opened Ledgers
  import opened Moves
  import opened Holding
  import opened Turns
  import opened Retries
  import opened Commands

  datatype Option<T> = None | Some(value: T)

  class Peer {
    const mtu: Short
    var sentReliableCommands: seq<Outgoing>
    var outgoingCommands: seq<Outgoing>
    var outgoingSendReliableCommands: seq<Outgoing>
    var reliableDataInTransit: nat

    /** For each channel, what its window counters count. */
    var channels: seq<set<nat>>

    /** For each channel, the last number transmitted. */
    ghost var last: seq<nat>

    const numbering: Numbering
    var earliestTimeout: nat
    var timeoutLimit: nat
    var timeoutMinimum: nat
    var timeoutMaximum: nat
    var packetsLost: nat
    var nextTimeout: nat
    var packetThrottle: nat
    var packetThrottleCounter: nat
    var windowSize: nat
    var roundTripTime: nat
    var roundTripTimeVariance: nat
    var acknowledgements: seq<Acknowledgement>
    var sentUnreliableCommands: seq<Outgoing>
    var continueSending: bool
    var outgoingDataTotal: nat
    var totalQueued: nat

    /** Whether the state is CONNECTED, whether it is one that sends at all, and whether the application is told of the
        end of the connection. */
    var connected: bool
    var active: bool
    var reported: bool

    var pingInterval: nat
    var lastReceiveTime: nat

    /** The host's datagram: what it holds, and the counters kept for it. */
    var commands: seq<Entry>
    var commandCount: nat
    var bufferCount: nat
    var packetSize: nat

    /** `enet_peer_reset` and the channels of `enet_host_connect`. */
    constructor (channelCount: nat, mtu: Short, windowSize: nat)
      requires channelCount <= PEER_CHANNEL && HEADER + ACKNOWLEDGE_SIZE <= mtu
      ensures Steady() && acknowledgements == [] && fresh(numbering) && this.mtu == mtu && active && reported
      ensures timeoutLimit == 32 && timeoutMinimum == 5000 && timeoutMaximum == 30000 && earliestTimeout == 0
      ensures roundTripTime == 500 && pingInterval == 500 && packetThrottle == 32
      ensures var q := Fresh(channelCount); Present() == Core(q, q.issued, Counters(q.issued, 0, q.issued))
    {
      var q := Fresh(channelCount);
      this.mtu, this.windowSize := mtu, windowSize;
      sentReliableCommands, outgoingCommands, outgoingSendReliableCommands, reliableDataInTransit := [], [], [], 0;
      channels, last := q.inFlight, q.issued;
      earliestTimeout, timeoutLimit, timeoutMinimum, timeoutMaximum, packetsLost, nextTimeout := 0, 32, 5000, 30000, 0, 0;
      packetThrottle, packetThrottleCounter, roundTripTime, roundTripTimeVariance := 32, 0, 500, 0;
      acknowledgements, sentUnreliableCommands, continueSending := [], [], false;
      outgoingDataTotal, totalQueued, connected, active, reported, pingInterval, lastReceiveTime := 0, 0, false, true, true, 500, 0;
      commands, commandCount, bufferCount, packetSize := [], 0, 1, HEADER;
      numbering := new Numbering(channelCount);
      new;
      FreshOk(channelCount);
    }

    ghost function State(): Queues
      reads this`sentReliableCommands, this`outgoingCommands, this`outgoingSendReliableCommands, this`reliableDataInTransit,
            this`channels, numbering`issued
    {
      Queues(sentReliableCommands, outgoingCommands, outgoingSendReliableCommands, reliableDataInTransit, channels,
             numbering.issued)
    }

    ghost function Present(): Core
      reads this`sentReliableCommands, this`outgoingCommands, this`outgoingSendReliableCommands, this`reliableDataInTransit,
            this`channels, this`last, numbering
    {
      Core(State(), last, numbering.Numbers())
    }

    ghost predicate Valid()
      reads this`sentReliableCommands, this`outgoingCommands, this`outgoingSendReliableCommands, this`reliableDataInTransit,
            this`channels, numbering`issued, this`last
    {
      Ok(State(), last)
    }

    /** nextTimeout is when the first of the sent commands expires. */
    predicate TimerSet()
      reads this`sentReliableCommands, this`nextTimeout
    {
      sentReliableCommands != [] ==>
        nextTimeout == (sentReliableCommands[0].sentTime + sentReliableCommands[0].timeout) % TIME_SPAN
    }

    /** The search of an acknowledged command: in the sent list first, then among those waiting to be sent again. */
    method Locate(sequence: nat, channelID: nat) returns (place: Option<Place>)
      requires Valid()
      ensures place.None? ==> Unmatched(State(), sequence, channelID)
      ensures place.Some? ==>
                Holds(State(), place.value) && Matches(At(State(), place.value)[place.value.k], sequence, channelID)
    {
      hide Keys, SendQueues.Bytes, Unsent, Distinct, Attempted, WindowsAgree, ChannelOk, NoneMatches, Unmatched, Matches;
      var k := FindAny(sentReliableCommands, sequence, channelID);
      if k < |sentReliableCommands| {
        return Some(InSent(k));
      }
      k := FindSent(outgoingCommands, sequence, channelID);
      if k < |outgoingCommands| {
        return Some(InOutgoing(k));
      }
      k := FindSent(outgoingSendReliableCommands, sequence, channelID);
      if k < |outgoingSendReliableCommands| {
        return Some(InReliable(k));
      }
      NothingMatches(State(), sequence, channelID);
      place := None;
    }

    /** The command leaves its list, its window, and the data in transit. */
    method TakeOut(p: Place) returns (c: Outgoing)
      requires Valid() && Holds(State(), p)
      modifies this`sentReliableCommands, this`outgoingCommands, this`outgoingSendReliableCommands,
               this`reliableDataInTransit, this`channels
      ensures Valid() && c == old(At(State(), p)[p.k]) && Takes(old(State()), State(), p, c)
      ensures Waiting(State()) == old(Waiting(State())) - multiset{Key(c)}
    {
      hide Keys, SendQueues.Bytes, Unsent, Distinct, Attempted, WindowsAgree, ChannelOk, Shaped, AttemptedFirst, Waiting;
      ghost var q := State();
      RemovedOk(q, last, p);
      match p {
        case InSent(k) =>
          c := sentReliableCommands[k];
          TransitCovers(q, last, k);
          sentReliableCommands := Without(sentReliableCommands, k);
          if c.packet {
            reliableDataInTransit := reliableDataInTransit - c.length;
          }
        case InOutgoing(k) =>
          c := outgoingCommands[k];
          outgoingCommands := Without(outgoingCommands, k);
        case InReliable(k) =>
          c := outgoingSendReliableCommands[k];
          outgoingSendReliableCommands := Without(outgoingSendReliableCommands, k);
      }
      if c.channel < |channels| {
        channels := channels[c.channel := channels[c.channel] - {c.number}];
      }
      assert State() == Removed(q, p);
    }

    /** `enet_protocol_remove_sent_reliable_command`. */
    method RemoveSentReliable(sequence: nat, channelID: nat) returns (removed: Option<Outgoing>)
      requires Valid() && TimerSet()
      modifies this`sentReliableCommands, this`outgoingCommands, this`outgoingSendReliableCommands,
               this`reliableDataInTransit, this`channels, this`nextTimeout
      ensures Valid() && TimerSet() && (old(Sendable()) ==> Sendable())
      ensures match removed
              case None => State() == old(State()) && Unmatched(State(), sequence, channelID)
              case Some(c) =>
                && Matches(c, sequence, channelID)
                && (exists p :: Takes(old(State()), State(), p, c))
                && Waiting(State()) == old(Waiting(State())) - multiset{Key(c)}
    {
      hide Ok, Unmatched, Waiting, Takes, Matches, AllFit, RunsCarryPackets, Key, Holds, At;
      ghost var q := State();
      var place := Locate(sequence, channelID);
      if place == None {
        return None;
      }
      var p := place.value;
      var c := TakeOut(p);
      if sentReliableCommands != [] {
        nextTimeout := (sentReliableCommands[0].sentTime + sentReliableCommands[0].timeout) % TIME_SPAN;
      }
      removed := Some(c);
      if AllFit(q, mtu) && RunsCarryPackets(q.outgoing) {
        TakesSendable(q, State(), p, c, last, mtu);
      }
    }

    /** `enet_protocol_check_timeouts`: true when the peer is given up, after the first n sent commands. */
    method CheckTimeouts(now: nat) returns (lost: bool, ghost n: nat)
      requires Valid() && TimerSet()
      modifies this`sentReliableCommands, this`outgoingCommands, this`outgoingSendReliableCommands,
               this`reliableDataInTransit, this`earliestTimeout, this`packetsLost, this`nextTimeout
      ensures Valid() && Waiting(State()) == old(Waiting(State())) && TimerSet()
      ensures !lost ==> n == |old(sentReliableCommands)| && forall c :: c in sentReliableCommands ==> !Expired(c, now)
      ensures TimedOut(old(sentReliableCommands), n, now, old(outgoingCommands), old(outgoingSendReliableCommands),
                       sentReliableCommands, outgoingCommands, outgoingSendReliableCommands)
      ensures if lost then FirstGivenUp(old(sentReliableCommands), n, now, old(earliestTimeout), Limits())
              else NoneGivenUp(old(sentReliableCommands), n, now, old(earliestTimeout), Limits())
      ensures Work(now) == old(Work(now)) && (old(Sendable()) ==> Sendable())
      ensures packetsLost == old(packetsLost) + ExpiredCount(old(sentReliableCommands)[..n], now)
      ensures earliestTimeout == Earliest(old(sentReliableCommands)[..if lost then n + 1 else n], now, old(earliestTimeout))
    {
      hide ExpiredCount, Underway, Expired, TimerSet, Ok, Work, Sendable, Waiting, Power, TimeLess, TimeDifference, Passed, TimedOut, NoneGivenUp,
           Earliest, FirstGivenUp, GivesUp, Earlier, Limits, State;
      var k, insertPosition, insertSendReliablePosition := 0, 0, 0;
      ghost var waiting, work, sendable := Waiting(State()), Work(now), Sendable();
      UnderwayStarts(now);
      n := 0;
      ghost var all, outgoing, reliable := sentReliableCommands, outgoingCommands, outgoingSendReliableCommands;
      PassedNone(all, now, outgoing, reliable);
      ghost var start := earliestTimeout;
      NobodyYet(all, now, start, Limits());
      NoneCounted(all, now);
      while k < |sentReliableCommands|
        invariant k <= |sentReliableCommands| && TimerSet()
        invariant Underway(k, insertPosition, insertSendReliablePosition, now, waiting, work, sendable)
        invariant Passed(all, n, now, outgoing, reliable, sentReliableCommands, outgoingCommands,
                         outgoingSendReliableCommands, k, insertPosition, insertSendReliablePosition)
        invariant n <= |all| && earliestTimeout == Earliest(all[..n], now, start) && NoneGivenUp(all, n, now, start, Limits())
        invariant packetsLost == old(packetsLost) + ExpiredCount(all[..n], now)
        decreases |sentReliableCommands| - k
      {
        var c := sentReliableCommands[k];
        OneMoreCounted(all, n, now);
        PassedOne(all, n, now, outgoing, reliable, sentReliableCommands, outgoingCommands,
                  outgoingSendReliableCommands, k, insertPosition, insertSendReliablePosition);
        if TimeDifference(now, c.sentTime) < c.timeout {
          InTime(c, now);
          OneMoreInTime(all, n, now, start, Limits());
          n := n + 1;
          UnderwayNext(k, insertPosition, insertSendReliablePosition, now, waiting, work, sendable);
          k := k + 1;
          continue;
        }
        Late(c, now);
        OneMoreLate(all, n, now, start, Limits());
        var givenUp := GiveUp(c, now);
        if givenUp {
          UnderwayEnds(k, insertPosition, insertSendReliablePosition, now, waiting, work, sendable);
          PassedAll(all, n, now, outgoing, reliable, sentReliableCommands, outgoingCommands,
                    outgoingSendReliableCommands, k, insertPosition, insertSendReliablePosition);
          return true, n;
        }
        packetsLost := packetsLost + 1;
        PutBack(k, insertPosition, insertSendReliablePosition, now, waiting, work, sendable);
        n := n + 1;
        if c.packet {
          insertSendReliablePosition := insertSendReliablePosition + 1;
        } else {
          insertPosition := insertPosition + 1;
        }
      }
      UnderwayEnds(k, insertPosition, insertSendReliablePosition, now, waiting, work, sendable);
      PassedAll(all, n, now, outgoing, reliable, sentReliableCommands, outgoingCommands,
                outgoingSendReliableCommands, k, insertPosition, insertSendReliablePosition);
      lost := false;
    }

    ghost function Limits(): TimeoutLimits
      reads this`timeoutLimit, this`timeoutMinimum, this`timeoutMaximum
    {
      TimeoutLimits(timeoutLimit, timeoutMinimum, timeoutMaximum)
    }

    /** Whether command c, which has expired, is one too many. */
    method GiveUp(c: Outgoing, now: nat) returns (givenUp: bool)
      modifies this`earliestTimeout
      ensures earliestTimeout == Earlier(c, old(earliestTimeout)) && givenUp == GivesUp(c, earliestTimeout, now, Limits())
    {
      if earliestTimeout == 0 || TimeLess(c.sentTime, earliestTimeout) {
        earliestTimeout := c.sentTime;
      }
      givenUp := earliestTimeout != 0
                 && (TimeDifference(now, earliestTimeout) >= timeoutMaximum
                     || (c.attempts > 0 && Power(c.attempts - 1) >= timeoutLimit
                         && TimeDifference(now, earliestTimeout) >= timeoutMinimum));
    }

    /** The loop over the sent commands: those before k have not expired, and the first `p` and `r` commands of the
        two outgoing lists were put there. */
    ghost predicate Underway(k: nat, p: nat, r: nat, now: nat, waiting: multiset<(nat, nat)>, work: nat, sendable: bool)
      reads this`sentReliableCommands, this`outgoingCommands, this`outgoingSendReliableCommands, this`reliableDataInTransit,
            this`channels, numbering`issued, this`last, this`acknowledgements
    {
      && Ok(State(), last) && Waiting(State()) == waiting && Work(now) == work && (sendable ==> Sendable())
      && p <= |outgoingCommands| && AllAttempted(outgoingCommands[..p])
      && r <= |outgoingSendReliableCommands| && AllAttempted(outgoingSendReliableCommands[..r])
      && k <= |sentReliableCommands| && forall c :: c in sentReliableCommands[..k] ==> !Expired(c, now)
    }

    lemma {:induction false} UnderwayStarts(now: nat)
      requires Valid()
      ensures Underway(0, 0, 0, now, Waiting(State()), Work(now), Sendable())
    {
    }

    lemma {:induction false} UnderwayNext(k: nat, p: nat, r: nat, now: nat, waiting: multiset<(nat, nat)>, work: nat, sendable: bool)
      requires Underway(k, p, r, now, waiting, work, sendable) && k < |sentReliableCommands|
      requires TimeDifference(now, sentReliableCommands[k].sentTime) < sentReliableCommands[k].timeout
      ensures Underway(k + 1, p, r, now, waiting, work, sendable)
    {
      assert sentReliableCommands[..k + 1] == sentReliableCommands[..k] + [sentReliableCommands[k]];
    }

    lemma {:induction false} UnderwayEnds(k: nat, p: nat, r: nat, now: nat, waiting: multiset<(nat, nat)>, work: nat, sendable: bool)
      requires Underway(k, p, r, now, waiting, work, sendable)
      ensures Valid() && Waiting(State()) == waiting && Work(now) == work && (sendable ==> Sendable())
      ensures k == |sentReliableCommands| ==> forall c :: c in sentReliableCommands ==> !Expired(c, now)
    {
      assert k == |sentReliableCommands| ==> sentReliableCommands[..k] == sentReliableCommands;
    }

    lemma {:induction false} InTime(c: Outgoing, now: nat)
      requires TimeDifference(now, c.sentTime) < c.timeout
      ensures !Expired(c, now)
    {
    }

    lemma {:induction false} Late(c: Outgoing, now: nat)
      requires TimeDifference(now, c.sentTime) >= c.timeout
      ensures Expired(c, now)
    {
    }

    /** One expired command doubles its timeout and goes back to its list, behind those that went before. */
    method PutBack(k: nat, p: nat, r: nat, ghost now: nat, ghost waiting: multiset<(nat, nat)>, ghost work: nat, ghost sendable: bool)
      requires Underway(k, p, r, now, waiting, work, sendable) && TimerSet()
      requires k < |sentReliableCommands| && Expired(sentReliableCommands[k], now)
      modifies this`sentReliableCommands, this`outgoingCommands, this`outgoingSendReliableCommands,
               this`reliableDataInTransit, this`nextTimeout
      ensures TimerSet() && sentReliableCommands == Without(old(sentReliableCommands), k)
      ensures var c := Doubled(old(sentReliableCommands)[k]);
              && p <= |old(outgoingCommands)| && r <= |old(outgoingSendReliableCommands)|
              && outgoingCommands == (if c.packet then old(outgoingCommands) else Inserted(old(outgoingCommands), p, c))
              && outgoingSendReliableCommands ==
                 (if c.packet then Inserted(old(outgoingSendReliableCommands), r, c) else old(outgoingSendReliableCommands))
      ensures if old(sentReliableCommands[k]).packet then Underway(k, p, r + 1, now, waiting, work, sendable)
              else Underway(k, p + 1, r, now, waiting, work, sendable)
    {
      hide Waiting, AttemptedFirst, AllAttempted, ExpiredCount, Expired, Ok, RunsCarryPackets, AllFit, Inserted, Without,
           SendQueues.Bytes;
      ghost var q, packet := State(), sentReliableCommands[k].packet;
      ghost var c := Doubled(sentReliableCommands[k]);
      TransitCovers(q, last, k);
      ReturnedOk(q, last, k, if packet then r else p);
      if packet { InsertKeepsOrder(q.reliable, r, c); } else { InsertKeepsOrder(q.outgoing, p, c); }
      Requeue(k, p, r);
      ExpiredWithout(q.sent, k, now);
      RequeuedBefore(q.sent, k);
      if sendable { ReturnedSendable(q, k, if packet then r else p, mtu); }
    }

    lemma {:induction false} RequeuedBefore(s: seq<Outgoing>, k: nat)
      requires k < |s|
      ensures Without(s, k)[..k] == s[..k]
    {
    }

    method Requeue(k: nat, p: nat, r: nat)
      requires k < |sentReliableCommands| && p <= |outgoingCommands| && r <= |outgoingSendReliableCommands|
      requires SendQueues.Bytes(sentReliableCommands) == reliableDataInTransit >= sentReliableCommands[k].length && TimerSet()
      modifies this`sentReliableCommands, this`outgoingCommands, this`outgoingSendReliableCommands,
               this`reliableDataInTransit, this`nextTimeout
      ensures TimerSet() && State() == Returned(old(State()), k, if old(sentReliableCommands)[k].packet then r else p)
    {
      hide SendQueues.Bytes;
      var c := sentReliableCommands[k];
      sentReliableCommands := sentReliableCommands[..k] + sentReliableCommands[k + 1..];
      var returned := c.(timeout := c.timeout * 2);
      if c.packet {
        reliableDataInTransit := reliableDataInTransit - c.length;
        outgoingSendReliableCommands := Inserted(outgoingSendReliableCommands, r, returned);
      } else {
        outgoingCommands := Inserted(outgoingCommands, p, returned);
      }
      if k == 0 && sentReliableCommands != [] {
        nextTimeout := (sentReliableCommands[0].sentTime + sentReliableCommands[0].timeout) % TIME_SPAN;
      }
    }

    /** The datagram stays within the mtu, 32 commands and the buffers there are. */
    ghost predicate Room()
      reads this`commands, this`commandCount, this`bufferCount, this`packetSize
    {
      && commandCount == |commands| <= MAXIMUM_PACKET_COMMANDS
      && 1 <= bufferCount <= 1 + 2 * commandCount
      && packetSize == HEADER + TotalSize(commands) <= mtu && AllFramable(commands)
    }

    /** Every command fits a datagram, and unreliable packets are queued whole. */
    ghost predicate Sendable()
      reads this`sentReliableCommands, this`outgoingCommands, this`outgoingSendReliableCommands, this`reliableDataInTransit,
            this`channels, numbering`issued
    {
      AllFit(State(), mtu) && RunsCarryPackets(outgoingCommands)
    }

    /** What there is to send, counting what has expired. */
    ghost function Work(now: nat): nat
      reads this`acknowledgements, this`outgoingCommands, this`outgoingSendReliableCommands, this`sentReliableCommands
    {
      |acknowledgements| + |outgoingCommands| + |outgoingSendReliableCommands| + ExpiredCount(sentReliableCommands, now)
    }

    /** There is no room for a command exactly if the datagram holds 32 commands, or would be longer than the mtu. */
    lemma {:induction false} FullExactly(c: Outgoing)
      requires Room() && FitsAlone(c, mtu)
      ensures Full(c) <==> NoRoom(commands, c, mtu)
    {
      hide TotalSize;
    }

    predicate Full(c: Outgoing)
      reads this`packetSize, this`commandCount, this`bufferCount
      requires packetSize <= mtu
    {
      || commandCount >= MAXIMUM_PACKET_COMMANDS || bufferCount + 1 >= BUFFERS || mtu - packetSize < SizeOf(c.kind)
      || (c.packet && (mtu - packetSize) % 0x10000 < (SizeOf(c.kind) + c.length) % 0x10000)
    }

    method Pack(c: Outgoing)
      requires Room() && FitsAlone(c, mtu) && !Full(c)
      modifies this`commands, this`commandCount, this`bufferCount, this`packetSize
      ensures Room() && commands == old(commands) + [Command(c)]
    {
      OneMore(commands, Command(c));
      OneMoreFramable(commands, Command(c));
      packetSize := packetSize + SizeOf(c.kind);
      if c.packet {
        bufferCount := bufferCount + 1;
        packetSize := packetSize + c.length;
      }
      commands := commands + [Command(c)];
      commandCount := commandCount + 1;
      bufferCount := bufferCount + 1;
    }

    function Head(fromReliable: bool): Outgoing
      reads this`outgoingSendReliableCommands, this`outgoingCommands
      requires if fromReliable then outgoingSendReliableCommands != [] else outgoingCommands != []
    {
      if fromReliable then outgoingSendReliableCommands[0] else outgoingCommands[0]
    }

    // Queueing.

    /** The 16-bit counters follow the numbers given, and no command that waits has a later number. */
    ghost predicate Numbered()
      reads this`sentReliableCommands, this`outgoingCommands, this`outgoingSendReliableCommands, this`reliableDataInTransit,
            this`channels, numbering
    {
      numbering.Counting(|channels|) && Bounded(Waiting(State()), numbering.Numbers())
    }

    /** `enet_peer_setup_outgoing_command`. Commands of a channel carry packets, those of no channel do not. */
    method SetupOutgoingCommand(draft: Outgoing) returns (c: Outgoing)
      requires Valid() && Numbered() && draft.attempts == 0
      requires if draft.packet then draft.channel < |channels| else draft.channel == PEER_CHANNEL && draft.length == 0
      modifies this`outgoingCommands, this`outgoingSendReliableCommands, this`outgoingDataTotal, this`totalQueued, numbering
      ensures Valid() && Numbered() && State() == Queued(old(State()), c) && Waiting(State()) == old(Waiting(State())) + KeyOf(c)
      ensures Given(old(numbering.Numbers()), numbering.Numbers(), c)
      ensures totalQueued == (old(totalQueued) + 1) % TIME_SPAN
      ensures outgoingDataTotal == (old(outgoingDataTotal) + SizeOf(draft.kind) + draft.length) % 0x1_0000_0000
      ensures numbering.outgoingUnsequencedGroup == NextGroup(draft, old(numbering.outgoingUnsequencedGroup))
      ensures c == draft.(number := c.number, unreliable := c.unreliable, kind := c.kind, queueTime := totalQueued)
      ensures c.kind == NumberedKind(draft, numbering.outgoingUnsequencedGroup) && (FitsAlone(draft, mtu) ==> FitsAlone(c, mtu))
      ensures old(Sendable()) && FitsAlone(c, mtu) ==> (Sendable() <==> !JoinsRun(old(outgoingCommands), c))
    {
      hide Ok, Waiting, AllFit, RunsCarryPackets, FitsAlone, Bounded, Given, New, KeyOf;
      ghost var q := State();
      IssuedCount(q, last);
      outgoingDataTotal := (outgoingDataTotal + SizeOf(draft.kind) + draft.length) % TIME_SPAN;
      totalQueued := (totalQueued + 1) % TIME_SPAN;
      c := numbering.Number(draft.(queueTime := totalQueued));
      NumberIsNew(q, old(numbering.Numbers()), numbering.Numbers(), c);
      NumberedFits(draft, c, numbering.outgoingUnsequencedGroup, mtu);
      QueuedOk(q, last, c);
      if AllFit(q, mtu) && RunsCarryPackets(q.outgoing) && FitsAlone(c, mtu) {
        QueuedSendable(q, c, mtu);
      }
      if c.acknowledge && c.packet {
        outgoingSendReliableCommands := outgoingSendReliableCommands + [c];
      } else {
        outgoingCommands := outgoingCommands + [c];
      }
      assert State() == Queued(q, c);
    }

    /** `enet_peer_send`. Too long a packet, or one for a peer or channel that is not there, is refused; a packet that
        does not fit a datagram is cut. `start` is the number that names the packet in its fragments. */
    method Send(channelID: nat, dataLength: nat, maximumPacketSize: nat, checksum: bool, reliable: bool, unsequenced: bool,
                unreliableFragment: bool)
      returns (code: int, start: nat, ghost cs: seq<Outgoing>)
      requires Valid() && Numbered() && HEADER + FRAGMENT_SIZE + 4 < mtu
      modifies this`outgoingCommands, this`outgoingSendReliableCommands, this`outgoingDataTotal, this`totalQueued, numbering
      ensures Valid() && Numbered() && State() == QueuedAll(old(State()), cs) && (old(Sendable()) ==> Sendable())
      ensures code == (if Refused(connected, channelID, |channels|, dataLength, maximumPacketSize, Piece(checksum)) then -1 else 0)
      ensures code == -1 <==>
              || !connected || channelID >= |channels| || dataLength > maximumPacketSize
              || dataLength > (mtu - if checksum then 32 else 28) * 0x10_0000
      ensures code == -1 ==> cs == [] && numbering.Numbers() == old(numbering.Numbers())
      ensures code == 0 && dataLength <= Piece(checksum) ==>
                && |cs| == 1 && WholePacket(cs[0], channelID, dataLength)
                && Given(old(numbering.Numbers()), numbering.Numbers(), cs[0])
                && WholeKind(cs[0], reliable, unsequenced, old(numbering.unreliableNumbers)[channelID],
                             numbering.outgoingUnsequencedGroup)
                && cs[0].kind == (if unsequenced && !reliable then Kind.SendUnsequenced(numbering.outgoingUnsequencedGroup)
                                  else if reliable || old(numbering.unreliableNumbers)[channelID] == 0xFFFF then Kind.SendReliable
                                  else Kind.SendUnreliable)
                && cs[0].acknowledge == cs[0].kind.SendReliable?
                && numbering.outgoingUnsequencedGroup ==
                   if unsequenced && !reliable then (old(numbering.outgoingUnsequencedGroup) + 1) % 0x1_0000
                   else old(numbering.outgoingUnsequencedGroup)
      ensures code == 0 && dataLength > Piece(checksum) ==>
                var acknowledge := reliable || !unreliableFragment || old(numbering.unreliableNumbers)[channelID] == SPAN - 1;
                && CutPacket(cs, old(numbering.Numbers()), numbering.Numbers(), channelID, dataLength, Piece(checksum), acknowledge)
                && start == StartNumber(old(numbering.Numbers()), channelID, acknowledge)
    {
      hide Ok, Waiting, Sendable, Bounded, QueuedAll, Given, CutPacket, PieceCount;
      cs, start := [], 0;
      TooManyFragments(dataLength, Piece(checksum));
      assert QueuedAll(State(), []) == State() by { NothingQueued(State()); }
      var fragmentLength := mtu - HEADER - FRAGMENT_SIZE;
      if !connected || channelID >= |channels| || dataLength > maximumPacketSize {
        return -1, start, cs;
      }
      if checksum {
        fragmentLength := fragmentLength - 4;
      }
      if dataLength > fragmentLength {
        if PieceCount(dataLength, fragmentLength) > MAXIMUM_FRAGMENTS {
          return -1, start, cs;
        }
        var acknowledge := reliable || !unreliableFragment || numbering.unreliableNumbers[channelID] >= SPAN - 1;
        start := if acknowledge then (numbering.reliableNumbers[channelID] + 1) % SPAN else numbering.unreliableNumbers[channelID] + 1;
        cs := SendFragments(start, channelID, dataLength, fragmentLength, acknowledge);
        return 0, start, cs;
      }
      cs := SendWhole(channelID, dataLength, reliable, unsequenced);
      code := 0;
    }

    /** A packet that fits a datagram is one command. */
    method SendWhole(channelID: nat, dataLength: nat, reliable: bool, unsequenced: bool) returns (ghost cs: seq<Outgoing>)
      requires Valid() && Numbered() && channelID < |channels| && dataLength + HEADER + FRAGMENT_SIZE <= mtu
      modifies this`outgoingCommands, this`outgoingSendReliableCommands, this`outgoingDataTotal, this`totalQueued, numbering
      ensures Valid() && Numbered() && State() == QueuedAll(old(State()), cs) && (old(Sendable()) ==> Sendable())
      ensures |cs| == 1 && WholePacket(cs[0], channelID, dataLength)
      ensures Given(old(numbering.Numbers()), numbering.Numbers(), cs[0])
      ensures WholeKind(cs[0], reliable, unsequenced, old(numbering.unreliableNumbers)[channelID], numbering.outgoingUnsequencedGroup)
      ensures numbering.outgoingUnsequencedGroup ==
              if unsequenced && !reliable then (old(numbering.outgoingUnsequencedGroup) + 1) % 0x1_0000
              else old(numbering.outgoingUnsequencedGroup)
    {
      hide Ok, Waiting, Sendable, Bounded, Given, QueuedAll;
      var draft := Outgoing(channelID, 0, 0, false, true, Kind.SendUnreliable, 0, dataLength, 0, 0, 0, 0);
      if !reliable && unsequenced {
        draft := draft.(kind := Kind.SendUnsequenced(0));
      } else if reliable || numbering.unreliableNumbers[channelID] >= SPAN - 1 {
        draft := draft.(acknowledge := true, kind := Kind.SendReliable);
      }
      NothingQueued(State());
      ghost var q := State();
      var c := SetupOutgoingCommand(draft);
      OneMoreQueued(q, [], c);
      assert [] + [c] == [c];
      cs := [c];
    }

    /** The longest part of a packet that goes into one command. */
    function Piece(checksum: bool): nat
      requires HEADER + FRAGMENT_SIZE + 4 < mtu
    {
      mtu - HEADER - FRAGMENT_SIZE - if checksum then 4 else 0
    }

    /** The loops of `enet_peer_send`: the fragments are cut first, then they all get their numbers. */
    method SendFragments(startNumber: nat, channelID: nat, dataLength: nat, piece: nat, acknowledge: bool)
      returns (ghost cs: seq<Outgoing>)
      requires Valid() && Numbered() && channelID < |channels| && 0 < piece <= mtu - HEADER - FRAGMENT_SIZE && piece < dataLength
      requires !acknowledge ==> numbering.unreliableNumbers[channelID] < SPAN - 1
      requires startNumber == StartNumber(numbering.Numbers(), channelID, acknowledge)
      modifies this`outgoingCommands, this`outgoingSendReliableCommands, this`outgoingDataTotal, this`totalQueued, numbering
      ensures Valid() && Numbered() && State() == QueuedAll(old(State()), cs) && (old(Sendable()) ==> Sendable())
      ensures CutPacket(cs, old(numbering.Numbers()), numbering.Numbers(), channelID, dataLength, piece, acknowledge)
    {
      hide Ok, Waiting, Sendable, Bounded, Given, QueuedAll, FragmentOf, Progress;
      cs := [];
      NothingQueued(State());
      ProgressStarts(numbering.Numbers(), channelID, acknowledge);
      var fragments := Cut(dataLength, piece);
      var n: nat := 0;
      while n < |fragments|
        invariant n == |cs| <= |fragments| && Valid() && Numbered() && State() == QueuedAll(old(State()), cs)
        invariant old(Sendable()) ==> Sendable()
        invariant Progress(old(numbering.Numbers()), numbering.Numbers(), channelID, n, acknowledge)
        invariant forall i :: 0 <= i < n ==> FragmentOf(cs[i], i, old(numbering.Numbers()), channelID, dataLength, piece, acknowledge)
      {
        var c := QueueFragment(fragments[n], startNumber, channelID, dataLength, piece, acknowledge, old(numbering.Numbers()));
        OneMoreQueued(old(State()), cs, c);
        cs := cs + [c];
        n := n + 1;
      }
    }

    method QueueFragment(f: Fragment, startNumber: nat, channelID: nat, dataLength: nat, piece: nat, acknowledge: bool,
                         ghost start: Counters)
      returns (c: Outgoing)
      requires Valid() && Numbered() && 0 < piece <= mtu - HEADER - FRAGMENT_SIZE
      requires f.number * piece < dataLength && f == PieceAt(dataLength, piece, f.number)
      requires Progress(start, numbering.Numbers(), channelID, f.number, acknowledge)
      requires !acknowledge ==> start.unreliable[channelID] < SPAN - 1
      requires startNumber == StartNumber(start, channelID, acknowledge)
      modifies this`outgoingCommands, this`outgoingSendReliableCommands, this`outgoingDataTotal, this`totalQueued, numbering
      ensures Valid() && Numbered() && State() == Queued(old(State()), c) && (old(Sendable()) ==> Sendable())
      ensures Progress(start, numbering.Numbers(), channelID, f.number + 1, acknowledge)
      ensures FragmentOf(c, f.number, start, channelID, dataLength, piece, acknowledge)
    {
      hide Ok, Waiting, Sendable, Bounded, Given;
      var kind := FragmentKind(startNumber, PieceCount(dataLength, piece), f.number, dataLength, acknowledge);
      c := SetupOutgoingCommand(Outgoing(channelID, 0, 0, acknowledge, true, kind, f.offset, f.length, 0, 0, 0, 0));
      FragmentNumbered(start, old(numbering.Numbers()), numbering.Numbers(), c, f.number, channelID, dataLength, piece, acknowledge);
    }

    // Transmission.

    /** A first transmission enters its window, and the first command sent sets the timer. */
    method EnterWindow(c: Outgoing, now: nat, timeout: nat)
      modifies this`last, this`channels, this`nextTimeout
      ensures last == Advanced(old(last), c) && channels == Entered(old(channels), c)
      ensures nextTimeout == if sentReliableCommands == [] then (now + timeout) % TIME_SPAN else old(nextTimeout)
    {
      last := Advanced(last, c);
      if c.channel < |channels| && c.attempts < 1 {
        channels := channels[c.channel := channels[c.channel] + {c.number}];
      }
      if sentReliableCommands == [] {
        nextTimeout := (now + timeout) % TIME_SPAN;
      }
    }

    /** How long the first answer to a command may take. */
    function RoundTripTimeout(): nat
      reads this`roundTripTime, this`roundTripTimeVariance
    {
      roundTripTime + 4 * roundTripTimeVariance
    }

    /** A reliable command goes to the sent list, for the first time or again. */
    method MoveToSent(fromReliable: bool, now: nat) returns (c: Outgoing)
      requires Valid() && TimerSet() && roundTripTime > 0
      requires if fromReliable then outgoingSendReliableCommands != [] else outgoingCommands != [] && outgoingCommands[0].acknowledge
      requires fromReliable && Head(true).attempts == 0 ==> Permitted(State(), Head(true))
      modifies this`sentReliableCommands, this`outgoingCommands, this`outgoingSendReliableCommands, this`channels,
               this`reliableDataInTransit, this`last, this`nextTimeout
      ensures Valid() && Waiting(State()) == old(Waiting(State())) && TimerSet() && c.timeout > 0
      ensures sentReliableCommands == old(sentReliableCommands) + [c]
      ensures c == Repeated(old(Head(fromReliable)), now, RoundTripTimeout())
      ensures c.timeout == var h := old(Head(fromReliable)); if h.timeout == 0 then roundTripTime + 4 * roundTripTimeVariance else h.timeout
      ensures c == Transmitted(old(Head(fromReliable)), now, c.timeout) && last == Advanced(old(last), old(Head(fromReliable)))
      ensures State() == Sent(old(State()), fromReliable, now, c.timeout)
    {
      hide Permitted, Ok, Waiting, Advanced, Entered;
      ghost var q := State();
      c := Head(fromReliable);
      var timeout := if c.timeout == 0 then roundTripTime + 4 * roundTripTimeVariance else c.timeout;
      SentOk(q, last, fromReliable, now, timeout);
      EnterWindow(c, now, timeout);
      if fromReliable {
        outgoingSendReliableCommands := outgoingSendReliableCommands[1..];
      } else {
        outgoingCommands := outgoingCommands[1..];
      }
      c := Transmitted(c, now, timeout);
      sentReliableCommands, reliableDataInTransit := sentReliableCommands + [c], reliableDataInTransit + c.length;
      assert State() == Sent(q, fromReliable, now, timeout);
    }

    /** A reliable command goes into the datagram and to the sent list. */
    method TransmitHead(fromReliable: bool, now: nat)
      requires Valid() && Room() && Sendable() && TimerSet() && roundTripTime > 0
      requires if fromReliable then outgoingSendReliableCommands != [] else outgoingCommands != [] && outgoingCommands[0].acknowledge
      requires Head(fromReliable).acknowledge && (fromReliable && Head(true).attempts == 0 ==> Permitted(State(), Head(true)))
      requires FitsAlone(Head(fromReliable), mtu) && !Full(Head(fromReliable))
      modifies this`sentReliableCommands, this`outgoingCommands, this`outgoingSendReliableCommands, this`channels,
               this`reliableDataInTransit, this`last, this`commands, this`commandCount, this`bufferCount, this`packetSize,
               this`nextTimeout
      ensures Valid() && Room() && TimerSet() && Sendable() && SentHead(old(Taken(now)), Taken(now), fromReliable)
      ensures sentReliableCommands != [] && last == Advanced(old(last), old(Head(fromReliable)))
      ensures State() == Sent(old(State()), fromReliable, now, sentReliableCommands[|sentReliableCommands| - 1].timeout)
      ensures sentReliableCommands == old(sentReliableCommands) + [Repeated(old(Head(fromReliable)), now, RoundTripTimeout())]
    {
      hide Ok, Waiting, TotalSize, Permitted, ExpiredCount, Alive, Full, AllFit, RunsCarryPackets, Leads, FitsAlone, Advanced,
           Entered, Repeated, RoundTripTimeout;
      ghost var before, sent := Taken(now), sentReliableCommands;
      assert Full(Head(fromReliable)) == false;
      var c := Head(fromReliable);
      ghost var q := State();
      var d := MoveToSent(fromReliable, now);
      SendableAfter(q, fromReliable, now, d.timeout, mtu);
      Pack(c);
      OneMoreAlive(sent, d, now);
      TransmitLeads(before.core, Present(), fromReliable, now, d.timeout);
    }

    /** An unreliable command goes into the datagram; its packet is kept until the datagram has been sent. */
    method SendUnreliableHead(ghost now: nat)
      requires Valid() && Room() && outgoingCommands != [] && !outgoingCommands[0].acknowledge
      requires FitsAlone(outgoingCommands[0], mtu) && !Full(outgoingCommands[0])
      modifies this`outgoingCommands, this`sentUnreliableCommands, this`commands, this`commandCount, this`bufferCount,
               this`packetSize
      ensures Valid() && Room() && SentHead(old(Taken(now)), Taken(now), false)
      ensures sentUnreliableCommands ==
              old(sentUnreliableCommands) + if old(outgoingCommands)[0].packet then [old(outgoingCommands)[0]] else []
    {
      hide Keys, Ok, Waiting, TotalSize, ExpiredCount, Alive;
      var c := outgoingCommands[0];
      ghost var before := Present();
      PoppedOk(State(), last, 1);
      Pack(c);
      outgoingCommands := outgoingCommands[1..];
      if c.packet {
        sentUnreliableCommands := sentUnreliableCommands + [c];
      }
      LeaveLeads(before, Present(), 1);
    }

    /** A throttled packet is dropped with the commands behind it that carry the same numbers. */
    method DropRun(ghost now: nat) returns (n: nat)
      requires Valid() && outgoingCommands != [] && !outgoingCommands[0].acknowledge && outgoingCommands[0].packet
      requires RunsCarryPackets(outgoingCommands)
      modifies this`outgoingCommands
      ensures Valid() && DroppedHeads(old(Taken(now)), Taken(now), n)
      ensures 0 < n <= |old(outgoingCommands)| && outgoingCommands == old(outgoingCommands)[n..]
      ensures forall k :: 0 <= k < n ==> old(outgoingCommands)[k].packet && !old(outgoingCommands)[k].acknowledge
                                         && SameNumbers(old(outgoingCommands)[0], old(outgoingCommands)[k])
      ensures n == RunLength(old(outgoingCommands))
    {
      hide Ok, Waiting, SameNumbers, Keys, ExpiredCount, Alive;
      ghost var q, before := State(), Present();
      var c := outgoingCommands[0];
      SameAsItself(c);
      outgoingCommands := outgoingCommands[1..];
      n := 1;
      while outgoingCommands != [] && SameNumbers(c, outgoingCommands[0])
        invariant 0 < n <= |q.outgoing| && outgoingCommands == q.outgoing[n..]
        invariant forall k :: 0 <= k < n ==> q.outgoing[k].packet && !q.outgoing[k].acknowledge && SameNumbers(c, q.outgoing[k])
        decreases |outgoingCommands|
      {
        assert q.outgoing[n] == outgoingCommands[0];
        SameAsOther(c, q.outgoing[n - 1], q.outgoing[n]);
        outgoingCommands := outgoingCommands[1..];
        n := n + 1;
      }
      PoppedOk(q, last, n);
      LeaveLeads(before, Present(), n);
      RunLengthIs(q.outgoing, n);
    }

    /** A command that fits a datagram of its own is refused only by one that holds something already. */
    lemma {:induction false} EmptyHasRoom(c: Outgoing)
      requires Room() && FitsAlone(c, mtu) && Full(c)
      ensures commandCount > 0
    {
    }

    /** Whether the windows or the throttle hold a reliable command back. */
    predicate HeldBack(c: Outgoing)
      reads this`channels, this`packetThrottle, this`windowSize, this`reliableDataInTransit
    {
      Stopped(channels, reliableDataInTransit, Allowance(), c)
    }

    /** How many of the reliable commands windows and throttle let go now, one after the other. */
    ghost function Reachable(): nat
      reads this`outgoingSendReliableCommands, this`channels, this`packetThrottle, this`windowSize, this`reliableDataInTransit
    {
      Reach(outgoingSendReliableCommands, channels, reliableDataInTransit, Allowance())
    }

    /** The reliable data that may be in transit: the throttled share of the window, but no less than a datagram. */
    function Allowance(): (n: nat)
      reads this`packetThrottle, this`windowSize
      ensures n >= mtu && 32 * n >= packetThrottle * windowSize - 31
      ensures n == mtu || 32 * n <= packetThrottle * windowSize < 32 * (n + 1)
    {
      var window := packetThrottle * windowSize / THROTTLE_SCALE;
      if window > mtu then window else mtu
    }

    ghost function Taken(now: nat): Snapshot
      reads this`sentReliableCommands, this`outgoingCommands, this`outgoingSendReliableCommands, this`reliableDataInTransit,
            this`channels, this`last, this`commands, this`acknowledgements, numbering
    {
      Snapshot(Present(), outgoingCommands, outgoingSendReliableCommands, commands, Waiting(State()), Work(now),
               Alive(sentReliableCommands, now))
    }

    /** Since the snapshot s the commands of e were packed and those of d dropped, a and b from the two lists. */
    ghost predicate Filling(s: Snapshot, a: nat, b: nat, e: seq<Outgoing>, d: seq<Outgoing>, now: nat)
      reads this`sentReliableCommands, this`outgoingCommands, this`outgoingSendReliableCommands, this`reliableDataInTransit,
            this`channels, this`last, this`commands, this`commandCount, this`bufferCount, this`packetSize, this`nextTimeout,
            this`acknowledgements, this`packetThrottle, numbering
    {
      && Valid() && Room() && Sendable() && TimerSet()
      && Ledger(s, Taken(now), a, b, e, d) && (packetThrottle >= THROTTLE_SCALE ==> d == [])
    }

    lemma {:induction false} FillingStarts(now: nat)
      requires Valid() && Room() && Sendable() && TimerSet()
      ensures Filling(Taken(now), 0, 0, [], [], now)
    {
      LedgerStarts(Taken(now));
    }

    /** Whether the throttle lets an unreliable command pass; only the first of a packet counts. */
    method Throttle(c: Outgoing) returns (throttled: bool)
      modifies this`packetThrottleCounter
      ensures var first := c.packet && c.offset == 0;
              && packetThrottleCounter == (if first then (old(packetThrottleCounter) + 7) % 32 else old(packetThrottleCounter))
              && throttled == (first && packetThrottleCounter > packetThrottle)
    {
      throttled := false;
      if c.packet && c.offset == 0 {
        packetThrottleCounter := (packetThrottleCounter + THROTTLE_COUNTER) % THROTTLE_SCALE;
        throttled := packetThrottleCounter > packetThrottle;
      }
    }

    /** A packet beyond the throttle is dropped with what belongs to it. */
    method DropThrottled(ghost now: nat, ghost s: Snapshot, ghost a: nat, ghost b: nat, ghost e: seq<Outgoing>, ghost d: seq<Outgoing>)
      returns (ghost n: nat)
      requires Filling(s, a, b, e, d, now) && outgoingCommands != [] && packetThrottle < THROTTLE_SCALE
      requires !outgoingCommands[0].acknowledge && outgoingCommands[0].packet
      modifies this`outgoingCommands
      ensures 0 < n <= |old(outgoingCommands)| && outgoingCommands == old(outgoingCommands)[n..]
      ensures Filling(s, a + n, b, e, d + old(outgoingCommands)[..n], now)
    {
      hide Keys, Ok, Waiting, TotalSize, RunsCarryPackets, ExpiredCount, Alive, LooseOf, CommandsOf, Ledger, AllFit,
           DroppedHeads, SameNumbers, Work;
      ghost var t, q := Taken(now), State();
      n := DropRun(now);
      SendableSuffix(q, n, mtu);
      LedgerDrops(s, t, Taken(now), a, b, e, d, n);
    }

    /** An unreliable command that may pass goes into the datagram. */
    method PackUnreliable(ghost now: nat, ghost s: Snapshot, ghost a: nat, ghost b: nat, ghost e: seq<Outgoing>,
                          ghost d: seq<Outgoing>)
      requires Filling(s, a, b, e, d, now) && outgoingCommands != [] && !outgoingCommands[0].acknowledge
      requires packetSize <= mtu && !Full(outgoingCommands[0]) && FitsAlone(outgoingCommands[0], mtu)
      modifies this`outgoingCommands, this`commands, this`commandCount, this`bufferCount, this`packetSize,
               this`sentUnreliableCommands
      ensures outgoingCommands == old(outgoingCommands)[1..]
      ensures Filling(s, a + 1, b, e + [old(outgoingCommands)[0]], d, now)
    {
      hide Keys, Ok, Waiting, TotalSize, RunsCarryPackets, Full, FitsAlone, ExpiredCount, Alive, LooseOf, CommandsOf, Ledger,
           AllFit, Work;
      ghost var t, q := Taken(now), State();
      SendableSuffix(q, 1, mtu);
      SendUnreliableHead(now);
      LedgerSendsOther(s, t, Taken(now), a, b, e, d);
    }

    /** An unreliable packet beyond the throttle is dropped instead of being sent. */
    method EmitUnreliable(now: nat, ghost s: Snapshot, ghost a: nat, ghost b: nat, ghost e: seq<Outgoing>, ghost d: seq<Outgoing>)
      returns (ghost x: Turn)
      requires Filling(s, a, b, e, d, now) && outgoingCommands != [] && !outgoingCommands[0].acknowledge
      requires packetSize <= mtu && !Full(outgoingCommands[0]) && FitsAlone(outgoingCommands[0], mtu)
      modifies this`outgoingCommands, this`commands, this`commandCount, this`bufferCount, this`packetSize,
               this`packetThrottleCounter, this`sentUnreliableCommands
      ensures |outgoingCommands| < |old(outgoingCommands)|
      ensures Gone(x) != [] && Gone(x) <= old(outgoingCommands) && !OfReliable(x)
      ensures if x.Packed? then Filling(s, a + 1, b, e + [x.c], d, now) else Filling(s, a + |x.run|, b, e, d + x.run, now)
      ensures var c := old(outgoingCommands)[0]; var first := c.packet && c.offset == 0;
              && packetThrottleCounter == (if first then (old(packetThrottleCounter) + 7) % 32 else old(packetThrottleCounter))
              && (x.Dropped? <==> first && packetThrottleCounter > packetThrottle)
    {
      hide Filling, Full, FitsAlone, LooseOf, CommandsOf, Keys;
      var c := outgoingCommands[0];
      var throttled := Throttle(c);
      if throttled {
        x := Dropped(outgoingCommands);
        ghost var n := DropThrottled(now, s, a, b, e, d);
        x := Dropped(x.run[..n]);
        return;
      }
      PackUnreliable(now, s, a, b, e, d);
      x := Packed(c, false);
    }

    /** A reliable command there is room for. */
    method EmitReliable(fromReliable: bool, now: nat, ghost s: Snapshot, ghost a: nat, ghost b: nat, ghost e: seq<Outgoing>,
                        ghost d: seq<Outgoing>)
      requires Filling(s, a, b, e, d, now) && packetSize <= mtu && roundTripTime > 0
      requires if fromReliable then outgoingSendReliableCommands != [] else outgoingCommands != []
      requires Head(fromReliable).acknowledge && !Full(Head(fromReliable)) && !HeldBack(Head(fromReliable))
      modifies this`sentReliableCommands, this`outgoingCommands, this`outgoingSendReliableCommands, this`channels,
               this`reliableDataInTransit, this`last, this`commands, this`commandCount, this`bufferCount, this`packetSize,
               this`nextTimeout
      ensures Filling(s, if fromReliable then a else a + 1, if fromReliable then b + 1 else b, e + [old(Head(fromReliable))], d, now)
      ensures |outgoingCommands| + |outgoingSendReliableCommands| < old(|outgoingCommands| + |outgoingSendReliableCommands|)
      ensures !fromReliable ==>
                && channels == old(channels) && reliableDataInTransit == old(reliableDataInTransit)
                && outgoingSendReliableCommands == old(outgoingSendReliableCommands)
      ensures Reachable() + (if fromReliable then 1 else 0) == old(Reachable())
      ensures sentReliableCommands == old(sentReliableCommands) + [Repeated(old(Head(fromReliable)), now, RoundTripTimeout())]
    {
      hide Keys, Ok, Waiting, TotalSize, MaySend, RunsCarryPackets, Full, FitsAlone, ExpiredCount, Alive, LooseOf, CommandsOf,
           Ledger, AllFit, SendQueues.Bytes, Stopped, Reach, Leads, Entered;
      HeadPlaced(State(), last, fromReliable);
      HeadFits(State(), fromReliable, mtu);
      ghost var t, q := Taken(now), State();
      MayBeSent(q, Head(fromReliable));
      TransmitHead(fromReliable, now);
      ghost var timeout := sentReliableCommands[|sentReliableCommands| - 1].timeout;
      ReachAfter(q, fromReliable, now, timeout, Allowance());
      if fromReliable {
        LedgerSendsReliable(s, t, Taken(now), a, b, e, d);
      } else {
        SentElsewhere(q, now, timeout);
        LedgerSendsOther(s, t, Taken(now), a, b, e, d);
      }
    }

    /** What is done with a command there is room for. */
    method Emit(fromReliable: bool, now: nat, ghost s: Snapshot, ghost a: nat, ghost b: nat, ghost e: seq<Outgoing>,
                ghost d: seq<Outgoing>)
      returns (ghost a': nat, ghost b': nat, ghost e': seq<Outgoing>, ghost d': seq<Outgoing>, ghost x: Turn)
      requires Filling(s, a, b, e, d, now) && packetSize <= mtu && roundTripTime > 0
      requires if fromReliable then outgoingSendReliableCommands != [] else outgoingCommands != []
      requires !Full(Head(fromReliable)) && (Head(fromReliable).acknowledge ==> !HeldBack(Head(fromReliable)))
      modifies this`sentReliableCommands, this`outgoingCommands, this`outgoingSendReliableCommands, this`channels,
               this`reliableDataInTransit, this`last, this`commands, this`commandCount, this`bufferCount, this`packetSize,
               this`packetThrottleCounter, this`sentUnreliableCommands, this`nextTimeout
      ensures Filling(s, a', b', e', d', now) && OfReliable(x) == fromReliable
      ensures Extends(x, s.outgoing, s.reliable, a, b, e, d, a', b', e', d')
      ensures |outgoingCommands| + |outgoingSendReliableCommands| < old(|outgoingCommands| + |outgoingSendReliableCommands|)
      ensures !fromReliable ==>
                && channels == old(channels) && reliableDataInTransit == old(reliableDataInTransit)
                && outgoingSendReliableCommands == old(outgoingSendReliableCommands)
      ensures AnyReliable(e') == (AnyReliable(e) || old(Head(fromReliable)).acknowledge)
      ensures Reachable() + b' == old(Reachable()) + b
      ensures sentReliableCommands ==
              old(sentReliableCommands) + if x.Packed? then SentIn(x.c, now, RoundTripTimeout()) else []
    {
      hide Filling, Full, HeldBack, LooseOf, CommandsOf, Keys, Reach, AnyReliable;
      var c := Head(fromReliable);
      EmitKnows(s, a, b, e, d, now, fromReliable);
      OneSent(e, c);
      if !c.acknowledge {
        x := EmitUnreliable(now, s, a, b, e, d);
        a', b', e', d' := a + |Gone(x)|, b, if x.Packed? then e + [x.c] else e, if x.Dropped? then d + x.run else d;
        return;
      }
      x := Packed(c, fromReliable);
      a', b', e', d' := if fromReliable then a else a + 1, if fromReliable then b + 1 else b, e + [c], d;
      EmitReliable(fromReliable, now, s, a, b, e, d);
    }

    lemma {:induction false} EmitKnows(s: Snapshot, a: nat, b: nat, e: seq<Outgoing>, d: seq<Outgoing>, now: nat, fromReliable: bool)
      requires Filling(s, a, b, e, d, now)
      requires if fromReliable then outgoingSendReliableCommands != [] else outgoingCommands != []
      ensures FitsAlone(Head(fromReliable), mtu) && (fromReliable ==> Head(fromReliable).acknowledge)
      ensures a <= |s.outgoing| && outgoingCommands == s.outgoing[a..]
      ensures b <= |s.reliable| && outgoingSendReliableCommands == s.reliable[b..]
    {
      hide Keys, Ok, Waiting, RunsCarryPackets, ExpiredCount, Alive, FitsAlone, Leads, LooseOf, CommandsOf;
      HeadPlaced(State(), last, fromReliable);
      HeadFits(State(), fromReliable, mtu);
    }

    lemma {:induction false} MayBeSent(q: Queues, c: Outgoing)
      requires q == State() && !HeldBack(c)
      ensures c.attempts == 0 ==> Permitted(q, c)
    {
      hide MaySend;
    }

    /** Which list is next: the one whose head was queued first. */
    function Choose(ended: bool): (fromReliable: Option<bool>)
      reads this`outgoingCommands, this`outgoingSendReliableCommands
      ensures fromReliable.None? ==> outgoingCommands == [] && (ended || outgoingSendReliableCommands == [])
      ensures fromReliable.Some? ==>
                && (if fromReliable.value then !ended && outgoingSendReliableCommands != [] else outgoingCommands != [])
                && Due(outgoingCommands, outgoingSendReliableCommands, 0, 0, fromReliable.value, ended)
    {
      var reliable := !ended && outgoingSendReliableCommands != [];
      if outgoingCommands == [] then (if reliable then Some(true) else None)
      else Some(reliable && TimeLess(outgoingSendReliableCommands[0].queueTime, outgoingCommands[0].queueTime))
    }

    /** `enet_protocol_check_outgoing_commands`: each list gives up commands from its head only, and of the two heads the
        one queued first goes before the other. A command held back by the windows or the throttle ends the walk of the
        reliable list, one there is no room for the whole walk. A ping may follow if no reliable command was reached. */
    method CheckOutgoingCommands(now: nat)
      returns (canPing: bool, full: bool, ghost a: nat, ghost b: nat, ghost e: seq<Outgoing>, ghost d: seq<Outgoing>,
               ghost atReliable: bool, ghost w: Walk)
      requires Valid() && Room() && Sendable() && TimerSet() && roundTripTime > 0
      modifies this`sentReliableCommands, this`outgoingCommands, this`outgoingSendReliableCommands, this`channels,
               this`reliableDataInTransit, this`last, this`commands, this`commandCount, this`bufferCount, this`packetSize,
               this`packetThrottleCounter, this`sentUnreliableCommands, this`nextTimeout, this`continueSending
      ensures Filling(old(Taken(now)), a, b, e, d, now)
      ensures Walks(w, old(outgoingCommands), old(outgoingSendReliableCommands), a, b, e, d)
      ensures w.ended ==> outgoingSendReliableCommands != [] && HeldBack(outgoingSendReliableCommands[0])
      ensures sentReliableCommands == old(sentReliableCommands) + SentOf(e, now, RoundTripTimeout())
      ensures full ==>
                && continueSending && commandCount > 0 && packetSize <= mtu
                && (if atReliable then outgoingSendReliableCommands != [] else outgoingCommands != [])
                && Due(outgoingCommands, outgoingSendReliableCommands, 0, 0, atReliable, w.ended)
                && Full(Head(atReliable)) && FitsAlone(Head(atReliable), mtu)
                && (Head(atReliable).acknowledge ==> !HeldBack(Head(atReliable)))
      ensures !full ==>
                && continueSending == old(continueSending) && outgoingCommands == []
                && (outgoingSendReliableCommands != [] ==> HeldBack(outgoingSendReliableCommands[0]))
      ensures b <= old(Reachable()) && (!full ==> b == old(Reachable()))
      ensures canPing <==> !AnyReliable(e) && (full ==> !Head(atReliable).acknowledge)
    {
      hide Filling, Full, HeldBack, AnyReliable, Choose, Taken, Reachable, Walks, Due, Extends, SentOf, SentIn;
      FillingStarts(now);
      ghost var s := Taken(now);
      canPing, full, a, b, e, d, atReliable := true, false, 0, 0, [], [], false;
      NoneReliable();
      WalkStarts(outgoingCommands, outgoingSendReliableCommands);
      assert s.outgoing == outgoingCommands && s.reliable == outgoingSendReliableCommands by { TakenLists(now); }
      NoneSent(now, RoundTripTimeout());
      w := Walk([], 0, false);
      var ended := false;
      while true
        invariant Filling(s, a, b, e, d, now) && continueSending == old(continueSending) && !full
        invariant ended ==> outgoingSendReliableCommands != [] && HeldBack(outgoingSendReliableCommands[0])
        invariant (canPing <==> !AnyReliable(e)) && Reachable() + b == old(Reachable())
        invariant Walks(w, s.outgoing, s.reliable, a, b, e, d) && w.ended == ended
        invariant sentReliableCommands == old(sentReliableCommands) + SentOf(e, now, RoundTripTimeout())
        decreases |outgoingCommands| + |outgoingSendReliableCommands|, if ended then 0 else 1
      {
        var choice := Choose(ended);
        if choice == None {
          break;
        }
        var fromReliable := choice.value;
        var c := Head(fromReliable);
        HeadFills(s, a, b, e, d, now, fromReliable);
        DueSinceStart(s, a, b, e, d, now, fromReliable, ended);
        if c.acknowledge {
          if HeldBack(c) {
            ended := true;
            WalkEnds(w, s.outgoing, s.reliable, a, b, e, d);
            w := w.(ended := true);
            continue;
          }
          canPing := false;
        }
        if Full(c) {
          continueSending, full, atReliable := true, true, fromReliable;
          break;
        }
        a, b, e, d, w := EmitNext(fromReliable, now, s, a, b, e, d, w, old(sentReliableCommands));
      }
      if !full { NothingReachable(); }
    }

    /** The head that is due is emitted, and the walk goes on. */
    method EmitNext(fromReliable: bool, now: nat, ghost s: Snapshot, ghost a: nat, ghost b: nat, ghost e: seq<Outgoing>,
                    ghost d: seq<Outgoing>, ghost w: Walk, ghost sent: seq<Outgoing>)
      returns (ghost a': nat, ghost b': nat, ghost e': seq<Outgoing>, ghost d': seq<Outgoing>, ghost w': Walk)
      requires Filling(s, a, b, e, d, now) && packetSize <= mtu && roundTripTime > 0
      requires if fromReliable then outgoingSendReliableCommands != [] else outgoingCommands != []
      requires !Full(Head(fromReliable)) && (Head(fromReliable).acknowledge ==> !HeldBack(Head(fromReliable)))
      requires Walks(w, s.outgoing, s.reliable, a, b, e, d) && Due(s.outgoing, s.reliable, a, b, fromReliable, w.ended)
      requires sentReliableCommands == sent + SentOf(e, now, RoundTripTimeout())
      modifies this`sentReliableCommands, this`outgoingCommands, this`outgoingSendReliableCommands, this`channels,
               this`reliableDataInTransit, this`last, this`commands, this`commandCount, this`bufferCount, this`packetSize,
               this`packetThrottleCounter, this`sentUnreliableCommands, this`nextTimeout
      ensures Filling(s, a', b', e', d', now)
      ensures Walks(w', s.outgoing, s.reliable, a', b', e', d') && w'.ended == w.ended
      ensures |outgoingCommands| + |outgoingSendReliableCommands| < old(|outgoingCommands| + |outgoingSendReliableCommands|)
      ensures !fromReliable ==>
                && channels == old(channels) && reliableDataInTransit == old(reliableDataInTransit)
                && outgoingSendReliableCommands == old(outgoingSendReliableCommands)
      ensures AnyReliable(e') == (AnyReliable(e) || old(Head(fromReliable)).acknowledge)
      ensures Reachable() + b' == old(Reachable()) + b
      ensures sentReliableCommands == sent + SentOf(e', now, RoundTripTimeout())
    {
      hide Filling, Full, HeldBack, Reachable, AnyReliable, Walks, Due, SentOf, SentIn;
      ghost var x;
      a', b', e', d', x := Emit(fromReliable, now, s, a, b, e, d);
      WalkSteps(w, s.outgoing, s.reliable, a, b, e, d, x, a', b', e', d');
      w' := Walk(w.log + [x], if w.ended then w.held else w.held + 1, w.ended);
      SentBy(x, sent, e, e', now, RoundTripTimeout());
    }

    lemma {:induction false} TakenLists(now: nat)
      ensures Taken(now).outgoing == outgoingCommands && Taken(now).reliable == outgoingSendReliableCommands
      ensures Taken(now).core.q == State() && Taken(now).commands == commands
    {
    }

    lemma {:induction false} DueSinceStart(s: Snapshot, a: nat, b: nat, e: seq<Outgoing>, d: seq<Outgoing>, now: nat,
                                           fromReliable: bool, ended: bool)
      requires Filling(s, a, b, e, d, now)
      requires Due(outgoingCommands, outgoingSendReliableCommands, 0, 0, fromReliable, ended)
      ensures Due(s.outgoing, s.reliable, a, b, fromReliable, ended)
      ensures fromReliable ==> !ended
    {
      hide Valid, Room, Sendable, TimerSet, Leads, LooseOf, Keys, CommandsOf, Sooner;
      DueLater(s.outgoing, s.reliable, a, b, fromReliable, ended);
    }

    /** What holds back the head of the reliable list: it is the first number of a window, sent for the first time, and the
        window before it is entirely in flight or something from seven windows before still is; or what would be in transit
        is more than the mtu and more than the throttled share of the window. */
    lemma {:induction false} HeldBackExactly()
      requires Valid() && outgoingSendReliableCommands != []
      ensures outgoingSendReliableCommands[0].channel < |channels|
      ensures var c := outgoingSendReliableCommands[0];
              HeldBack(c) <==>
              || (c.attempts == 0 && c.number % 0x1000 == 0
                  && ((forall m :: c.number - 0x1000 <= m < c.number ==> m in channels[c.channel])
                      || exists m :: m in channels[c.channel] && m / 0x1000 + 6 < c.number / 0x1000))
              || (reliableDataInTransit + c.length > mtu
                  && 32 * (reliableDataInTransit + c.length) > packetThrottle * windowSize)
    {
      hide MaySend, Keys, Distinct, WindowsAgree, AttemptedFirst;
      HeadPlaced(State(), last, true);
      var c := outgoingSendReliableCommands[0];
      if c.attempts == 0 {
        FirstUnsent(State(), last);
        OpensExactly(channels[c.channel], last[c.channel]);
      }
    }

    lemma {:induction false} HeadReachable()
      requires Valid() && outgoingSendReliableCommands != []
      ensures outgoingSendReliableCommands[0].acknowledge && (Reachable() == 0 ==> HeldBack(outgoingSendReliableCommands[0]))
    {
      hide Keys, Ok, Stopped;
      HeadPlaced(State(), last, true);
    }

    lemma {:induction false} NothingReachable()
      requires outgoingSendReliableCommands != [] ==> HeldBack(outgoingSendReliableCommands[0])
      ensures Reachable() == 0
    {
    }

    /** A command is refused for lack of room only by a datagram that holds something already, and a command that
        belongs to no channel is never held back. */
    lemma {:induction false} HeadFills(s: Snapshot, a: nat, b: nat, e: seq<Outgoing>, d: seq<Outgoing>, now: nat, fromReliable: bool)
      requires Filling(s, a, b, e, d, now)
      requires if fromReliable then outgoingSendReliableCommands != [] else outgoingCommands != []
      ensures packetSize <= mtu && (Full(Head(fromReliable)) ==> commandCount > 0) && FitsAlone(Head(fromReliable), mtu)
      ensures Head(fromReliable).acknowledge && HeldBack(Head(fromReliable)) ==> fromReliable
    {
      hide Keys, Ok, Waiting, RunsCarryPackets, ExpiredCount, MaySend, Ledger, Alive;
      HeadPlaced(State(), last, fromReliable);
      HeadFits(State(), fromReliable, mtu);
      var c := Head(fromReliable);
      if Full(c) { EmptyHasRoom(c); }
    }

    // Passes.

    method PackAcknowledgement()
      requires Room() && acknowledgements != [] && commandCount < MAXIMUM_PACKET_COMMANDS
      requires packetSize + ACKNOWLEDGE_SIZE <= mtu
      modifies this`acknowledgements, this`commands, this`commandCount, this`bufferCount, this`packetSize
      ensures Room() && commands == old(commands) + Acks(old(acknowledgements)[..1])
      ensures acknowledgements == old(acknowledgements)[1..]
    {
      hide TotalSize;
      OneMore(commands, Ack(acknowledgements[0]));
      OneMoreFramable(commands, Ack(acknowledgements[0]));
      packetSize := packetSize + ACKNOWLEDGE_SIZE;
      commands := commands + [Ack(acknowledgements[0])];
      acknowledgements := acknowledgements[1..];
      commandCount := commandCount + 1;
      bufferCount := bufferCount + 1;
    }

    /** `enet_protocol_send_acknowledgements`: the oldest ones, as many as fit. */
    method SendAcknowledgements() returns (ghost n: nat)
      requires Room() && mtu >= HEADER + ACKNOWLEDGE_SIZE
      modifies this`acknowledgements, this`commands, this`commandCount, this`bufferCount, this`packetSize,
               this`continueSending
      ensures Room() && n <= |old(acknowledgements)| && acknowledgements == old(acknowledgements)[n..]
      ensures commands == old(commands) + Acks(old(acknowledgements)[..n])
      ensures continueSending == (old(continueSending) || acknowledgements != [])
      ensures acknowledgements != [] ==> commandCount > 0 && (|commands| >= 32 || 4 + TotalSize(commands) + 8 > mtu)
    {
      hide TotalSize;
      n := 0;
      ghost var all := acknowledgements;
      while acknowledgements != []
        invariant Room() && n <= |all| && acknowledgements == all[n..]
        invariant commands == old(commands) + Acks(all[..n])
        invariant continueSending == old(continueSending)
        decreases |acknowledgements|
      {
        if commandCount >= MAXIMUM_PACKET_COMMANDS || bufferCount >= BUFFERS || mtu - packetSize < ACKNOWLEDGE_SIZE {
          if commandCount == 0 { NothingPacked(); }
          continueSending := true;
          break;
        }
        PackAcknowledgement();
        assert Acks(all[..n + 1]) == Acks(all[..n]) + Acks(all[n..][..1]);
        n := n + 1;
      }
    }

    /** Between datagrams. */
    ghost predicate Ready()
      reads this`sentReliableCommands, this`outgoingCommands, this`outgoingSendReliableCommands, this`reliableDataInTransit,
            this`channels, numbering`issued, this`last, this`nextTimeout, this`roundTripTime
    {
      Valid() && Sendable() && TimerSet() && roundTripTime > 0 && HEADER + ACKNOWLEDGE_SIZE <= mtu
    }

    /** The next ping would not be taken for a part of the packet queued last. */
    ghost predicate PingSafe()
      reads this`outgoingCommands, numbering`peerIssued
    {
      !JoinsRun(outgoingCommands, PING.(number := numbering.peerIssued + 1))
    }

    /** Every acknowledgement has gone, outgoingCommands is empty, and the first command of the reliable list, if there is
        one, is held back. Behind it there may be commands that windows and throttle permit. */
    ghost predicate Drained()
      reads this`acknowledgements, this`outgoingCommands, this`outgoingSendReliableCommands, this`channels,
            this`packetThrottle, this`windowSize, this`reliableDataInTransit
    {
      && acknowledgements == [] && outgoingCommands == []
      && (outgoingSendReliableCommands != [] ==> HeldBack(outgoingSendReliableCommands[0]))
    }

    /** Some reliable command that windows and throttle permit is still queued. */
    ghost predicate PermittedWaits()
      reads this`outgoingSendReliableCommands, this`channels, this`packetThrottle, this`windowSize, this`reliableDataInTransit
    {
      exists k :: 0 <= k < |outgoingSendReliableCommands| && !HeldBack(outgoingSendReliableCommands[k])
    }

    /** Such a command stands behind one that they hold back. */
    ghost predicate PermittedBehindHeld()
      reads this`outgoingSendReliableCommands, this`channels, this`packetThrottle, this`windowSize, this`reliableDataInTransit
    {
      exists i, k :: 0 <= i < k < |outgoingSendReliableCommands|
                     && HeldBack(outgoingSendReliableCommands[i]) && !HeldBack(outgoingSendReliableCommands[k])
    }

    /** Drained is not all that is permitted: exactly a command held back keeps permitted ones waiting. */
    lemma {:induction false} DrainedExactly()
      requires Drained()
      ensures PermittedWaits() <==> PermittedBehindHeld()
    {
      hide Stopped;
      PermittedLeft(outgoingSendReliableCommands, channels, reliableDataInTransit, Allowance());
    }

    ghost function StartOf(now: nat): PassStart
      reads this`sentReliableCommands, this`outgoingCommands, this`outgoingSendReliableCommands, this`reliableDataInTransit,
            this`channels, this`last, this`acknowledgements, numbering
    {
      PassStart(Present(), acknowledgements, outgoingCommands, Waiting(State()), Work(now), Alive(sentReliableCommands, now))
    }

    /** While a datagram is filled. Only one that holds something asks for another pass. */
    ghost predicate InPass(now: nat, b: PassStart, n: nat, e: seq<Outgoing>, d: seq<Outgoing>, pinged: multiset<(nat, nat)>)
      reads this`sentReliableCommands, this`outgoingCommands, this`outgoingSendReliableCommands, this`reliableDataInTransit,
            this`channels, this`last, this`nextTimeout, this`roundTripTime, this`commands, this`commandCount,
            this`bufferCount, this`packetSize, this`acknowledgements, this`continueSending, this`packetThrottle, numbering
    {
      && Ready() && Numbered() && PingSafe() && Room()
      && PassLedger(b, Taken(now), acknowledgements, n, e, d, pinged)
      && (packetThrottle >= THROTTLE_SCALE ==> d == []) && (continueSending ==> commandCount > 0)
    }

    lemma {:induction false} TimerIsSet()
      requires Ready()
      ensures TimerSet()
    {
      hide TimerSet;
    }

    lemma {:induction false} ReadyFits()
      requires Ready()
      ensures HEADER + ACKNOWLEDGE_SIZE <= mtu
    {
    }

    /** The host's buffers are emptied for the next datagram. */
    method StartDatagram()
      requires HEADER <= mtu
      modifies this`commands, this`commandCount, this`bufferCount, this`packetSize, this`continueSending
      ensures Room() && commands == [] && !continueSending
    {
      NothingPacked();
      continueSending := false;
      commands, commandCount, bufferCount, packetSize := [], 0, 1, HEADER;
    }

    /** The next datagram begins with the acknowledgements. */
    method StartWithAcknowledgements() returns (ghost n: nat)
      requires HEADER + ACKNOWLEDGE_SIZE <= mtu
      modifies this`acknowledgements, this`commands, this`commandCount, this`bufferCount, this`packetSize,
               this`continueSending
      ensures Room() && n <= |old(acknowledgements)| && acknowledgements == old(acknowledgements)[n..]
      ensures commands == Acks(old(acknowledgements)[..n])
      ensures continueSending == (acknowledgements != []) && (continueSending ==> commandCount > 0)
      ensures acknowledgements != [] ==> n >= 32 || 4 + TotalSize(commands) + 8 > mtu
    {
      hide Room, Acks, TotalSize;
      StartDatagram();
      n := SendAcknowledgements();
      assert [] + Acks(old(acknowledgements)[..n]) == Acks(old(acknowledgements)[..n]);
    }

    method BeginPass(ghost now: nat) returns (ghost n: nat)
      requires Ready() && Numbered() && PingSafe()
      modifies this`acknowledgements, this`commands, this`commandCount, this`bufferCount, this`packetSize,
               this`continueSending
      ensures InPass(now, old(StartOf(now)), n, [], [], multiset{})
      ensures !continueSending ==> acknowledgements == []
    {
      hide InPass, Ready, Numbered, PingSafe, Room, Waiting, ExpiredCount, TotalSize, Keys, Alive, PassLedger, Acks, Present, State,
           Valid;
      ghost var b := StartOf(now);
      ReadyFits();
      n := StartWithAcknowledgements();
      PassStarts(b, Taken(now), acknowledgements, n);
      NothingFilled(now, b, n);
    }

    lemma {:induction false} NothingFilled(now: nat, b: PassStart, n: nat)
      requires Ready() && Numbered() && PingSafe() && Room() && (continueSending ==> commandCount > 0)
      requires PassLedger(b, Taken(now), acknowledgements, n, [], [], multiset{})
      ensures InPass(now, b, n, [], [], multiset{})
    {
      hide Ready, Numbered, PingSafe, Room, PassLedger, Taken;
    }

    /** The commands that have expired go back to the lists they are sent from. */
    method Expire(now: nat, ghost b: PassStart, ghost n: nat) returns (lost: bool)
      requires InPass(now, b, n, [], [], multiset{})
      modifies this`sentReliableCommands, this`outgoingCommands, this`outgoingSendReliableCommands,
               this`reliableDataInTransit, this`earliestTimeout, this`packetsLost, this`nextTimeout
      ensures InPass(now, b, n, [], [], multiset{})
      ensures !lost ==> Onward(old(State()), State(), [], now, true)
    {
      hide Ok, Waiting, Sendable, TotalSize, Keys, PassLedger, ExpiredCount, Alive, Kept, Back, JoinsRun, Bounded,
           FirstGivenUp, NoneGivenUp, Onward;
      ghost var s, q, k := Taken(now), State(), 0;
      lost, k := CheckTimeouts(now);
      ghost var back := Back(q.sent[..k], now, false);
      ExpiryKeeps(q, last, k, now, outgoingCommands, sentReliableCommands, outgoingSendReliableCommands);
      OkIsSized(Present());
      TimedOutLeads(s.core, Present(), k, now);
      if !lost {
        SentAsks(q, last);
        TimedOutIsOnward(q, State(), now);
      }
      PassExpires(b, s, Taken(now), acknowledgements, n, back);
      BackIsSafe(back, q.outgoing, PING.(number := numbering.peerIssued + 1));
    }

    /** A walk over the lists during a pass. */
    method Fill(now: nat, ghost b: PassStart, ghost n: nat, ghost e: seq<Outgoing>, ghost d: seq<Outgoing>,
                ghost pinged: multiset<(nat, nat)>)
      returns (canPing: bool, full: bool, ghost e': seq<Outgoing>, ghost d': seq<Outgoing>, ghost f: seq<Outgoing>,
               ghost refused: Option<Outgoing>)
      requires InPass(now, b, n, e, d, pinged)
      modifies this`sentReliableCommands, this`outgoingCommands, this`outgoingSendReliableCommands, this`channels,
               this`reliableDataInTransit, this`last, this`commands, this`commandCount, this`bufferCount, this`packetSize,
               this`packetThrottleCounter, this`sentUnreliableCommands, this`nextTimeout, this`continueSending
      ensures InPass(now, b, n, e', d', pinged)
      ensures Onward(old(State()), State(), commands, now, false) && old(commands) <= commands
      ensures commands == old(commands) + CommandsOf(f) && full == refused.Some?
      ensures canPing <==> !AnyReliable(f) && (full ==> !refused.value.acknowledge)
      ensures sentReliableCommands == [] <==> old(sentReliableCommands) == [] && !AnyReliable(f)
      ensures full ==> continueSending && NoRoom(commands, refused.value, mtu)
      ensures !full ==>
                && continueSending == old(continueSending) && outgoingCommands == []
                && (outgoingSendReliableCommands != [] ==> HeldBack(outgoingSendReliableCommands[0]))
                && (forall c :: c in old(outgoingCommands) && c.acknowledge ==> c in f)
                && (!AnyReliable(f) && old(outgoingSendReliableCommands) != [] ==> old(HeldBack(outgoingSendReliableCommands[0])))
    {
      hide Ok, Waiting, Sendable, TotalSize, Keys, PassLedger, Ledger, ExpiredCount, Alive, JoinsRun, Bounded, HeldBack, LooseOf,
           Full, Work, Walks, Onward, SentOf, Turns.Due, NoRoom, Reachable, AnyReliable;
      ghost var s, x, y, g, atReliable, w := Taken(now), 0, 0, [], false, Walk([], 0, false);
      if outgoingSendReliableCommands != [] { HeadReachable(); }
      IssuedCount(State(), last);
      canPing, full, x, y, f, g, atReliable, w := CheckOutgoingCommands(now);
      PassFills(b, s, Taken(now), acknowledgements, n, e, d, pinged, x, y, f, g);
      WalkIsOnward(s, Taken(now), x, y, f, g, now, RoundTripTimeout());
      LedgerPacks(s, Taken(now), x, y, f, g);
      SentNothing(f, now, RoundTripTimeout());
      e', d' := e + f, d + g;
      refused := None;
      if full {
        refused := Some(Head(atReliable));
        FullExactly(Head(atReliable));
      } else {
        AllTaken(s, Taken(now), x, y, f, g);
      }
      IssuedCount(State(), last);
      SuffixIsSafe(s, Taken(now), x, y, f, g, PING.(number := numbering.peerIssued + 1));
    }

    /** `enet_peer_ping`, while nothing that was sent waits for acknowledgement. */
    method Ping(ghost now: nat, ghost b: PassStart, ghost n: nat, ghost e: seq<Outgoing>, ghost d: seq<Outgoing>)
      returns (ghost pinged: multiset<(nat, nat)>)
      requires InPass(now, b, n, e, d, multiset{}) && sentReliableCommands == []
      modifies this`outgoingCommands, this`outgoingSendReliableCommands, this`outgoingDataTotal, this`totalQueued, numbering
      ensures InPass(now, b, n, e, d, pinged) && (pinged != multiset{} <==> connected)
      ensures Onward(old(State()), State(), [], now, false)
    {
      hide Ok, Waiting, TotalSize, Keys, PassLedger, ExpiredCount, Alive, Bounded, LooseOf, AllFit, RunsCarryPackets, Onward;
      pinged := multiset{};
      OnwardItself(State(), [], now);
      if !connected {
        return;
      }
      ghost var q := State();
      ghost var s := Taken(now);
      NobodyAlive(now);
      var c := SetupOutgoingCommand(PING);
      EnqueueLeads(s.core, Present(), c);
      PassPings(b, s, Taken(now), acknowledgements, n, e, d, c);
      pinged := KeyOf(c);
      QueuedIsOnward(q, c, now);
    }

    /** The walk over the lists, and the ping if nothing has been heard for long. `first` is what the first walk packed,
        `refused` the command it found no room for. */
    method FillAndPing(now: nat, ghost b: PassStart, ghost n: nat)
      returns (ghost e: seq<Outgoing>, ghost d: seq<Outgoing>, ghost pinged: multiset<(nat, nat)>,
               ghost first: seq<Outgoing>, ghost refused: Option<Outgoing>)
      requires InPass(now, b, n, [], [], multiset{}) && (!continueSending ==> acknowledgements == [])
      modifies this`sentReliableCommands, this`outgoingCommands, this`outgoingSendReliableCommands, this`channels,
               this`reliableDataInTransit, this`last, this`commands, this`commandCount, this`bufferCount, this`packetSize,
               this`packetThrottleCounter, this`sentUnreliableCommands, this`nextTimeout, this`continueSending,
               this`outgoingDataTotal, this`totalQueued, numbering
      ensures InPass(now, b, n, e, d, pinged) && (!continueSending ==> Drained())
      ensures Onward(old(State()), State(), commands, now, false)
      ensures refused.Some? ==> NoRoom(old(commands) + CommandsOf(first), refused.value, mtu)
      ensures refused.None? ==>
                && (forall c :: c in old(outgoingCommands) && c.acknowledge ==> c in first)
                && (!AnyReliable(first) && old(outgoingSendReliableCommands) != [] ==>
                      old(HeldBack(outgoingSendReliableCommands[0])))
      ensures pinged != multiset{} <==>
              && connected && old(sentReliableCommands) == []
              && !AnyReliable(first) && (refused.Some? ==> !refused.value.acknowledge)
              && Between(now, lastReceiveTime) >= pingInterval
              && 4 + TotalSize(old(commands) + CommandsOf(first)) + 4 <= mtu
    {
      hide InPass, HeldBack, TimeDifference, Onward, NoRoom, AnyReliable, Between, State, TotalSize;
      e, d, pinged, first, refused := [], [], multiset{}, [], None;
      var canPing, full := true, false;
      ghost var q := State();
      OnwardItself(q, commands, now);
      StateLists();
      NothingFirst(commands);
      if outgoingCommands != [] || outgoingSendReliableCommands != [] {
        canPing, full, e, d, first, refused := Fill(now, b, n, [], [], multiset{});
      }
      PingFits(now, b, n, e, d);
      if canPing && sentReliableCommands == [] && TimeDifference(now, lastReceiveTime) >= pingInterval
         && mtu - packetSize >= PING_SIZE {
        ghost var filled, m := State(), commands;
        e, d, pinged := PingAndFill(now, b, n, e, d);
        OnwardChains(q, filled, State(), m, commands, commands, now, false, false);
      }
    }

    /** A ping, and the walk that packs it. */
    method PingAndFill(now: nat, ghost b: PassStart, ghost n: nat, ghost e: seq<Outgoing>, ghost d: seq<Outgoing>)
      returns (ghost e': seq<Outgoing>, ghost d': seq<Outgoing>, ghost pinged: multiset<(nat, nat)>)
      requires InPass(now, b, n, e, d, multiset{}) && sentReliableCommands == []
      requires !continueSending ==> acknowledgements == []
      modifies this`sentReliableCommands, this`outgoingCommands, this`outgoingSendReliableCommands, this`channels,
               this`reliableDataInTransit, this`last, this`commands, this`commandCount, this`bufferCount, this`packetSize,
               this`packetThrottleCounter, this`sentUnreliableCommands, this`nextTimeout, this`continueSending,
               this`outgoingDataTotal, this`totalQueued, numbering
      ensures InPass(now, b, n, e', d', pinged) && (pinged != multiset{} <==> connected)
      ensures Onward(old(State()), State(), commands, now, false) && old(commands) <= commands
      ensures !continueSending ==> Drained()
    {
      hide InPass, HeldBack, Onward, NoRoom, AnyReliable, State;
      var canPing, full;
      ghost var q, f, refused := State(), [], None;
      assert q.sent == [] by { StateLists(); }
      pinged := Ping(now, b, n, e, d);
      ghost var r := State();
      canPing, full, e', d', f, refused := Fill(now, b, n, e, d, pinged);
      OnwardChains(q, r, State(), [], commands, commands, now, false, false);
    }

    lemma {:induction false} StateLists()
      ensures State().sent == sentReliableCommands && State().outgoing == outgoingCommands
      ensures State().reliable == outgoingSendReliableCommands
    {
    }

    lemma {:induction false} PingFits(now: nat, b: PassStart, n: nat, e: seq<Outgoing>, d: seq<Outgoing>)
      requires InPass(now, b, n, e, d, multiset{})
      ensures mtu - packetSize >= PING_SIZE <==> 4 + TotalSize(commands) + 4 <= mtu
      ensures TimeDifference(now, lastReceiveTime) == Between(now, lastReceiveTime)
    {
      hide Ready, Numbered, PingSafe, PassLedger, TotalSize;
      BetweenExactly(now, lastReceiveTime);
    }

    /** The timer is due when the first of the sent commands is. */
    lemma {:induction false} ReachedSet(now: nat)
      requires TimerSet() && sentReliableCommands != []
      ensures Reached(sentReliableCommands[0], now) <==> !TimeLess(now, nextTimeout)
    {
      ReachedExactly(sentReliableCommands[0], now);
    }

    /** One pass for this peer: a datagram is filled and handed to the network. Of the commands sent before those that are
        overdue are sent again or wait to be, if the first one is due; none is left out, and no other is touched. */
    method SendPass(now: nat, checkForTimeouts: bool)
      returns (lost: bool, ghost n: nat, ghost e: seq<Outgoing>, ghost d: seq<Outgoing>, ghost pinged: multiset<(nat, nat)>)
      requires Ready() && Numbered() && PingSafe()
      modifies this`sentReliableCommands, this`outgoingCommands, this`outgoingSendReliableCommands, this`channels,
               this`reliableDataInTransit, this`last, this`commands, this`commandCount, this`bufferCount, this`packetSize,
               this`packetThrottleCounter, this`sentUnreliableCommands, this`nextTimeout, this`continueSending,
               this`outgoingDataTotal, this`totalQueued, this`acknowledgements, this`earliestTimeout, this`packetsLost,
               numbering
      ensures InPass(now, old(StartOf(now)), n, e, d, pinged)
      ensures !lost && !continueSending ==> Drained()
      ensures lost ==> Checks(old(sentReliableCommands), now, checkForTimeouts)
      ensures !lost ==> Onward(old(State()), State(), commands, now, Checks(old(sentReliableCommands), now, checkForTimeouts))
    {
      hide InPass, Ready, Numbered, PingSafe, Drained, State, Waiting, Work, Keys, Alive, TimeLess, Onward, Reached, AnyReliable, NoRoom;
      ghost var b, q := StartOf(now), State();
      n := BeginPass(now);
      lost, e, d, pinged := false, [], [], multiset{};
      TimerIsSet();
      StateLists();
      if sentReliableCommands != [] { ReachedSet(now); }
      OnwardItself(q, [], now);
      if checkForTimeouts && sentReliableCommands != [] && !TimeLess(now, nextTimeout) {
        lost := Expire(now, b, n);
      }
      if !lost {
        ghost var r, first, refused := State(), [], None;
        e, d, pinged, first, refused := FillAndPing(now, b, n);
        OnwardChains(q, r, State(), [], commands, commands, now, Checks(q.sent, now, checkForTimeouts), false);
      }
    }

    ghost predicate Steady()
      reads this`sentReliableCommands, this`outgoingCommands, this`outgoingSendReliableCommands, this`reliableDataInTransit,
            this`channels, this`last, this`nextTimeout, this`roundTripTime, numbering
    {
      Ready() && Numbered() && PingSafe()
    }

    /** How far the peer is from being done, for the passes to come. */
    ghost function PhaseAt(now: nat): nat
      reads this`sentReliableCommands, this`outgoingCommands, this`outgoingSendReliableCommands, this`reliableDataInTransit,
            this`channels, this`last, this`acknowledgements, this`active, numbering
    {
      if active then Phase(StartOf(now)) else 0
    }

    ghost function LeftAt(now: nat): nat
      reads this`sentReliableCommands, this`outgoingCommands, this`outgoingSendReliableCommands, this`reliableDataInTransit,
            this`channels, this`last, this`acknowledgements, this`active, numbering
    {
      if active then Left(StartOf(now)) else 0
    }

    /** What a filled datagram means for the account of the peer and for what is left to do. */
    lemma {:induction false} PassTold(now: nat, b: PassStart, n: nat, e: seq<Outgoing>, d: seq<Outgoing>,
                                      pinged: multiset<(nat, nat)>, a: Account)
      requires InPass(now, b, n, e, d, pinged) && Balanced(a, b)
      ensures Steady() && Within(commands, mtu) && commandCount == |commands|
      ensures Balanced(Account(a.start, a.entries + commands, a.dropped + d, a.pings + pinged), StartOf(now))
      ensures Phase(StartOf(now)) < Phase(b)
              || (Phase(StartOf(now)) == Phase(b) && Left(StartOf(now)) + |commands| <= Left(b))
      ensures continueSending ==> commands != []
    {
      hide Ready, Numbered, PingSafe, Balanced, PassLedger, Waiting, Work, Alive, Phase, Left, TotalSize;
      assert PassLedger(b, Taken(now), acknowledgements, n, e, d, pinged);
      assert EndOf(Taken(now), acknowledgements) == StartOf(now);
      BalanceKept(a, b, Taken(now), acknowledgements, n, e, d, pinged);
      PassProgresses(b, Taken(now), acknowledgements, n, e, d, pinged);
      PassCounts(b, Taken(now), acknowledgements, n, e, d, pinged);
    }

    /** A peer's turn in a pass of the host. A peer that is given up sends nothing any more, and its acknowledgements
        are lost with it. */
    method Visit(now: nat, checkForTimeouts: bool, event: bool, ghost a: Account)
      returns (datagram: seq<Entry>, told: bool, ghost r: Account)
      requires active && Steady() && Balanced(a, StartOf(now))
      modifies this, numbering
      ensures active ==>
                && Steady() && Balanced(r, StartOf(now)) && r.entries == a.entries + datagram
                && (!continueSending ==> Drained())
                && Onward(old(State()), State(), datagram, now, Checks(old(sentReliableCommands), now, checkForTimeouts))
      ensures !active ==> Checks(old(sentReliableCommands), now, checkForTimeouts)
      ensures r.start == a.start && (told ==> event && !active)
      ensures Within(datagram, mtu) && (!active ==> datagram == []) && sentUnreliableCommands == []
      ensures PhaseAt(now) < old(PhaseAt(now))
              || (PhaseAt(now) == old(PhaseAt(now)) && LeftAt(now) + |datagram| <= old(LeftAt(now)))
      ensures continueSending ==>
                PhaseAt(now) < old(PhaseAt(now)) || (PhaseAt(now) == old(PhaseAt(now)) && LeftAt(now) < old(LeftAt(now)))
    {
      hide Ready, Numbered, PingSafe, StartOf, Balanced, Phase, InPass, Drained, Within, Onward, Reached, State;
      ghost var b := StartOf(now);
      var lost;
      ghost var n, e, d, pinged;
      lost, n, e, d, pinged := SendPass(now, checkForTimeouts);
      PassTold(now, b, n, e, d, pinged, a);
      datagram, told := commands, false;
      r := Account(a.start, a.entries + commands, a.dropped + d, a.pings + pinged);
      if lost {
        told := NotifyDisconnect(event);
        datagram := [];
        NothingWithin(commands, mtu);
      }
      sentUnreliableCommands := [];
    }

    /** The peer stops sending: it is reset, or waits as a zombie to be reported later. */
    method NotifyDisconnect(event: bool) returns (told: bool)
      modifies this`active, this`continueSending
      ensures !active && told == (event && reported)
      ensures continueSending == (old(continueSending) && reported && !event)
    {
      active, told := false, event && reported;
      if !reported || event {
        continueSending := false;
      }
    }
  }

  /** A head that was never sent has the number after the last one sent. */
  lemma {:induction false} FirstUnsent(q: Queues, last: seq<nat>)
    requires Ok(q, last) && q.reliable != [] && q.reliable[0].attempts == 0 && q.reliable[0].acknowledge
    requires q.reliable[0].channel < |q.inFlight|
    ensures var c := q.reliable[0];
            && |last| == |q.inFlight| && c.number == last[c.channel] + 1
            && forall m :: m in q.inFlight[c.channel] ==> 1 <= m <= last[c.channel] && last[c.channel] / 0x1000 <= m / 0x1000 + 6
  {
    hide Keys, Distinct, WindowsAgree, AttemptedFirst;
    var c := q.reliable[0];
    assert ChannelOk(q, last[c.channel], c.channel);
    assert Unsent(q.reliable, c.channel)[0] == c.number;
  }

  lemma {:induction false} NothingFirst(s: seq<Entry>)
    ensures s + CommandsOf([]) == s && !AnyReliable([])
  {
    NoneReliable();
    assert s + [] == s;
  }

  lemma {:induction false} SentBy(x: Turn, sent: seq<Outgoing>, e: seq<Outgoing>, e': seq<Outgoing>, now: nat, rto: nat)
    requires e' == e + if x.Packed? then [x.c] else []
    ensures sent + SentOf(e, now, rto) + (if x.Packed? then SentIn(x.c, now, rto) else []) == sent + SentOf(e', now, rto)
  {
    hide SentIn, SentOf;
    if x.Packed? {
      OneMoreSent(e, x.c, now, rto);
      assert sent + SentOf(e, now, rto) + SentIn(x.c, now, rto) == sent + (SentOf(e, now, rto) + SentIn(x.c, now, rto));
    } else {
      assert e' == e;
    }
  }

  lemma {:induction false} HeadFits(q: Queues, fromReliable: bool, mtu: nat)
    requires AllFit(q, mtu) && (if fromReliable then q.reliable != [] else q.outgoing != [])
    ensures FitsAlone(if fromReliable then q.reliable[0] else q.outgoing[0], mtu)
  {
    hide FitsAlone;
  }

  lemma {:induction false} IssuedCount(q: Queues, last: seq<nat>)
    requires Ok(q, last)
    ensures |q.issued| == |q.inFlight|
  {
  }

  lemma {:induction false} SentAsks(q: Queues, last: seq<nat>)
    requires Ok(q, last)
    ensures forall c :: c in q.sent ==> c.acknowledge
  {
  }

  /** A command of no channel leaves windows and data in transit alone. */
  lemma {:induction false} SentElsewhere(q: Queues, now: nat, timeout: nat)
    requires q.outgoing != [] && q.outgoing[0].channel >= |q.inFlight| && q.outgoing[0].length == 0
    ensures var r := Sent(q, false, now, timeout); r.inFlight == q.inFlight && r.transit == q.transit && r.reliable == q.reliable
  {
  }

  lemma {:induction false} ExpiryKeeps(q: Queues, last: seq<nat>, k: nat, now: nat, outgoing: seq<Outgoing>, sent: seq<Outgoing>,
                                       reliable: seq<Outgoing>)
    requires Ok(q, last) && TimedOut(q.sent, k, now, q.outgoing, q.reliable, sent, outgoing, reliable)
    ensures Alive(sent, now) == Alive(q.sent, now) && outgoing == Back(q.sent[..k], now, false) + q.outgoing
    ensures forall c :: c in Back(q.sent[..k], now, false) ==> c.acknowledge
  {
    hide Keys, Distinct, WindowsAgree, ChannelOk, AttemptedFirst, Expired;
    ExpiryKeepsAlive(q.sent, k, now);
    BackAcknowledges(q.sent[..k], now, false);
  }

  lemma {:induction false} BackAcknowledges(s: seq<Outgoing>, now: nat, packet: bool)
    requires forall c :: c in s ==> c.acknowledge
    ensures forall c :: c in Back(s, now, packet) ==> c.acknowledge
  {
    hide Expired;
    if s != [] { BackAcknowledges(s[..|s| - 1], now, packet); }
  }

  lemma {:induction false} BackIsSafe(back: seq<Outgoing>, outgoing: seq<Outgoing>, ping: Outgoing)
    requires !JoinsRun(outgoing, ping) && forall c :: c in back ==> c.acknowledge
    ensures !JoinsRun(back + outgoing, ping)
  {
    hide SameNumbers;
    var s := back + outgoing;
    if s != [] {
      assert outgoing == [] ==> s == back && s[|s| - 1] in back;
      assert outgoing != [] ==> s[|s| - 1] == outgoing[|outgoing| - 1];
    }
  }

  lemma {:induction false} SuffixIsSafe(s: Snapshot, t: Snapshot, a: nat, b: nat, e: seq<Outgoing>, d: seq<Outgoing>, ping: Outgoing)
    requires Ledger(s, t, a, b, e, d) && !JoinsRun(s.outgoing, ping)
    ensures !JoinsRun(t.outgoing, ping) && t.waiting == s.waiting && |t.commands| >= |s.commands|
  {
    hide SameNumbers, Keys, LooseOf, CommandsOf;
    if t.outgoing != [] { assert t.outgoing[|t.outgoing| - 1] == s.outgoing[|s.outgoing| - 1]; }
  }

  lemma {:induction false} HeadPlaced(q: Queues, last: seq<nat>, fromReliable: bool)
    requires Ok(q, last) && (if fromReliable then q.reliable != [] else q.outgoing != [])
    ensures fromReliable ==> q.reliable[0].acknowledge && q.reliable[0].packet && q.reliable[0].channel < |q.inFlight|
    ensures !fromReliable && q.outgoing[0].acknowledge ==>
              !q.outgoing[0].packet && q.outgoing[0].channel >= |q.inFlight| && q.outgoing[0].length == 0
  {
    if fromReliable { assert Placed(q.reliable[0], q); }
    assert !fromReliable && q.outgoing[0].acknowledge ==> !q.outgoing[0].packet && Placed(q.outgoing[0], q);
  }

  lemma {:induction false} TransitCovers(q: Queues, last: seq<nat>, k: nat)
    requires Ok(q, last) && k < |q.sent|
    ensures q.transit == SendQueues.Bytes(q.sent) >= q.sent[k].length
    ensures !q.sent[k].packet ==> q.sent[k].length == 0
    ensures q.sent[k].acknowledge && q.sent[k].attempts > 0 && AttemptedFirst(q.outgoing) && AttemptedFirst(q.reliable)
  {
    WithoutOne(q.sent, k);
    assert Placed(q.sent[k], q);
  }
}
