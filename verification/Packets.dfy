/** Packets shared by the commands of many queues, counted by reference. */
module Packets {
  class SharedPacket {
    var referenceCount: nat

    /** How often the packet was destroyed. */
    ghost var destructions: nat

    /** `enet_packet_create`. */
    constructor ()
      ensures referenceCount == 0 && destructions == 0
    {
      referenceCount, destructions := 0, 0;
    }
  }

  /** A queued command: the packet it holds, if any, and its sequence numbers. */
  datatype Entry = Entry(packet: SharedPacket?, reliable: nat, unreliable: nat)

  /** How many of the commands in a queue, and in all queues, hold packet p. */
  ghost function Count(list: seq<Entry>, p: SharedPacket): nat {
    if list == [] then 0 else (if list[0].packet == p then 1 else 0) + Count(list[1..], p)
  }

  ghost function CountAll(lists: seq<seq<Entry>>, p: SharedPacket): nat {
    if lists == [] then 0 else Count(lists[0], p) + CountAll(lists[1..], p)
  }

  lemma {:induction false} CountJoins(a: seq<Entry>, b: seq<Entry>, p: SharedPacket)
    ensures Count(a + b, p) == Count(a, p) + Count(b, p)
  {
    if a == [] {
      assert a + b == b;
    } else {
      CountJoins(a[1..], b, p);
      assert (a + b)[1..] == a[1..] + b && (a + b)[0] == a[0];
    }
  }

  /** One entry more or less in a queue is one holder more or less. */
  lemma {:induction false} OneHolder(list: seq<Entry>, k: nat, e: Entry, p: SharedPacket)
    requires k <= |list|
    ensures Count(list[..k] + [e] + list[k..], p) == Count(list, p) + if e.packet == p then 1 else 0
  {
    assert list == list[..k] + list[k..];
    CountJoins(list[..k], list[k..], p);
    CountJoins(list[..k] + [e], list[k..], p);
    CountJoins(list[..k], [e], p);
    assert [e][1..] == [];
  }

  lemma {:induction false} OneLess(list: seq<Entry>, k: nat, p: SharedPacket)
    requires k < |list|
    ensures Count(list, p) == Count(list[..k] + list[k + 1..], p) + if list[k].packet == p then 1 else 0
  {
    var rest := list[..k] + list[k + 1..];
    OneHolder(rest, k, list[k], p);
    assert rest[..k] + [list[k]] + rest[k..] == list;
  }

  lemma {:induction false} ListReplaced(lists: seq<seq<Entry>>, i: nat, list: seq<Entry>, p: SharedPacket)
    requires i < |lists|
    ensures CountAll(lists[i := list], p) + Count(lists[i], p) == CountAll(lists, p) + Count(list, p)
    ensures Count(lists[i], p) <= CountAll(lists, p)
  {
    hide Count;
    if i > 0 {
      ListReplaced(lists[1..], i - 1, list, p);
      assert lists[i := list][1..] == lists[1..][i - 1 := list] && lists[i := list][0] == lists[0];
    } else {
      assert lists[i := list][1..] == lists[1..];
    }
  }

  lemma {:induction false} NobodyHolds(lists: seq<seq<Entry>>, p: SharedPacket)
    requires forall i, k :: 0 <= i < |lists| && 0 <= k < |lists[i]| ==> lists[i][k].packet != p
    ensures CountAll(lists, p) == 0
  {
    if lists != [] {
      NobodyInList(lists[0], p);
      NobodyHolds(lists[1..], p);
    }
  }

  lemma {:induction false} NobodyInList(list: seq<Entry>, p: SharedPacket)
    requires forall k :: 0 <= k < |list| ==> list[k].packet != p
    ensures Count(list, p) == 0
  {
    if list != [] { NobodyInList(list[1..], p); }
  }

  /** A queue without its entries from start to end, except one. */
  function Spared(list: seq<Entry>, start: nat, end: nat, exclude: nat): seq<Entry>
    requires start <= end <= |list|
  {
    list[..start] + (if start <= exclude < end then [list[exclude]] else []) + list[end..]
  }

  lemma {:induction false} SparedStarts(list: seq<Entry>, start: nat, exclude: nat)
    requires start <= |list|
    ensures Spared(list, start, start, exclude) == list
  {
    assert list == list[..start] + list[start..];
  }

  lemma {:induction false} SparedStep(list: seq<Entry>, start: nat, passed: nat, exclude: nat)
    requires start <= passed < |list|
    ensures var current := start + if start <= exclude < passed then 1 else 0;
            var now, next := Spared(list, start, passed, exclude), Spared(list, start, passed + 1, exclude);
            current < |now| && next == if passed == exclude then now else now[..current] + now[current + 1..]
  {
  }

  predicate SameNumbers(a: Entry, b: Entry) { a.reliable == b.reliable && a.unreliable == b.unreliable }

  /** How many commands from k on carry the numbers of the one at k, without a gap. */
  ghost function RunLength(list: seq<Entry>, k: nat): (n: nat)
    requires k < |list|
    ensures 0 < n && k + n <= |list| && (forall t :: k <= t < k + n ==> SameNumbers(list[t], list[k]))
    ensures k + n < |list| ==> !SameNumbers(list[k + n], list[k])
    decreases |list| - k
  {
    if k + 1 < |list| && SameNumbers(list[k + 1], list[k]) then 1 + RunLength(list, k + 1) else 1
  }

  ghost function Sizes(parts: seq<seq<Entry>>): nat {
    if parts == [] then 0 else Sizes(parts[..|parts| - 1]) + |parts[|parts| - 1]|
  }

  lemma {:induction false} RunMoved(lists: seq<seq<Entry>>, i: nat, start: nat, end: nat, j: nat, k: nat, p: SharedPacket)
    requires i < |lists| && j < |lists| && i != j && start <= end <= |lists[i]| && k <= |lists[j]|
    ensures var run, rest := lists[i][start..end], lists[i][..start] + lists[i][end..];
            CountAll(lists[i := rest][j := lists[j][..k] + run + lists[j][k..]], p) == CountAll(lists, p)
  {
    hide Count, CountAll;
    var run, rest := lists[i][start..end], lists[i][..start] + lists[i][end..];
    var into := lists[j][..k] + run + lists[j][k..];
    assert lists[i] == lists[i][..start] + run + lists[i][end..] && lists[j] == lists[j][..k] + lists[j][k..];
    CountJoins(lists[i][..start], run, p);
    CountJoins(lists[i][..start] + run, lists[i][end..], p);
    CountJoins(lists[i][..start], lists[i][end..], p);
    CountJoins(lists[j][..k], lists[j][k..], p);
    CountJoins(lists[j][..k], run, p);
    CountJoins(lists[j][..k] + run, lists[j][k..], p);
    ListReplaced(lists, i, rest, p);
    ListReplaced(lists[i := rest], j, into, p);
  }

  /** The queues of all peers and channels, by number. */
  class PacketQueues {
    const lists: array<seq<Entry>>

    /** The packets that were ever created. */
    ghost var known: set<SharedPacket>

    ghost function Holders(p: SharedPacket): nat
      reads lists
    {
      CountAll(lists[..], p)
    }

    /** The count of a packet is the number of queued commands that hold it, and nobody holds a destroyed one. */
    ghost predicate Counted(p: SharedPacket)
      reads lists, p
    {
      p.referenceCount == Holders(p) && p.destructions <= 1 && (p.destructions == 1 ==> Holders(p) == 0)
    }

    ghost predicate AllKnown()
      reads this, lists
    {
      forall i, k :: 0 <= i < lists.Length && 0 <= k < |lists[i]| ==>
        lists[i][k].packet == null || lists[i][k].packet in known
    }

    ghost predicate Valid()
      reads this, lists, known
    {
      AllKnown() && forall p :: p in known ==> Counted(p)
    }

    /** Just those packets were destroyed whose last holder went, and none got a new holder. */
    twostate predicate Freed()
      reads this, lists, known
    {
      && known == old(known)
      && forall p :: p in known ==>
           && Holders(p) <= old(Holders(p))
           && p.destructions == old(p.destructions) + if old(Holders(p)) > 0 && Holders(p) == 0 then 1 else 0
    }

    constructor (size: nat)
      ensures Valid() && known == {} && fresh(lists) && lists.Length == size
      ensures forall i :: 0 <= i < size ==> lists[i] == []
    {
      lists, known := new seq<Entry>[size](_ => []), {};
    }

    /** A packet from the application or from the network becomes known. */
    method Create() returns (p: SharedPacket)
      requires Valid()
      modifies this`known
      ensures Valid() && fresh(p) && known == old(known) + {p} && p.referenceCount == p.destructions == 0
    {
      hide Count, CountAll;
      p := new SharedPacket();
      NobodyHolds(lists[..], p);
      known := known + {p};
    }

    /** A command that holds a packet is queued: `enet_peer_queue_outgoing_command` and the end of
        `enet_peer_queue_incoming_command`. */
    method Insert(i: nat, k: nat, e: Entry)
      requires Valid() && i < lists.Length && k <= |lists[i]|
      requires e.packet != null ==> e.packet in known && e.packet.destructions == 0
      modifies lists, known
      ensures Valid() && lists[..] == old(lists[..])[i := old(lists[i])[..k] + [e] + old(lists[i])[k..]]
      ensures forall p :: p in known ==>
                && p.destructions == old(p.destructions)
                && Holders(p) == old(Holders(p)) + if p == e.packet then 1 else 0
    {
      hide Count, CountAll;
      ghost var seen := lists[..];
      var list := lists[i][..k] + [e] + lists[i][k..];
      forall p | p in known ensures CountAll(seen[i := list], p) == CountAll(seen, p) + if p == e.packet then 1 else 0 {
        OneHolder(lists[i], k, e, p);
        ListReplaced(seen, i, list, p);
      }
      if e.packet != null {
        e.packet.referenceCount := e.packet.referenceCount + 1;
      }
      lists[i] := list;
      assert lists[..] == seen[i := list];
    }

    /** A command leaves its queue and is freed; the last one that holds a packet destroys it. */
    method Drop(i: nat, k: nat)
      requires Valid() && i < lists.Length && k < |lists[i]|
      modifies lists, known
      ensures Valid() && Freed() && lists[..] == old(lists[..])[i := old(lists[i])[..k] + old(lists[i])[k + 1..]]
      ensures forall p :: p in known ==>
                old(Holders(p)) == Holders(p) + if p == old(lists[i])[k].packet then 1 else 0
    {
      hide Count, CountAll;
      ghost var seen := lists[..];
      var packet, list := lists[i][k].packet, lists[i][..k] + lists[i][k + 1..];
      forall p | p in known ensures CountAll(seen, p) == CountAll(seen[i := list], p) + if p == packet then 1 else 0 {
        OneLess(lists[i], k, p);
        ListReplaced(seen, i, list, p);
      }
      if packet != null {
        assert Counted(packet);
        packet.referenceCount := packet.referenceCount - 1;
        if packet.referenceCount == 0 {
          packet.destructions := packet.destructions + 1;
        }
      }
      lists[i] := list;
      assert lists[..] == seen[i := list];
    }

    /** `enet_peer_reset_outgoing_commands`, `enet_peer_reset_incoming_commands` and
        `enet_protocol_remove_sent_unreliable_commands` empty a queue. */
    method Empty(i: nat)
      requires Valid() && i < lists.Length
      modifies lists, known
      ensures Valid() && Freed() && lists[..] == old(lists[..])[i := []]
    {
      hide Holders, Counted, AllKnown;
      while lists[i] != []
        invariant Valid() && Freed() && lists[..] == old(lists[..])[i := lists[i]]
        decreases |lists[i]|
      {
        Drop(i, 0);
      }
    }

    /** `enet_peer_remove_incoming_commands`: a run goes, except for one command. */
    method RemoveIncoming(i: nat, start: nat, end: nat, exclude: nat)
      requires Valid() && i < lists.Length && start <= end <= |lists[i]|
      modifies lists, known
      ensures Valid() && Freed() && lists[..] == old(lists[..])[i := Spared(old(lists[i]), start, end, exclude)]
    {
      hide Holders, Counted, AllKnown, Spared;
      ghost var list := lists[i];
      SparedStarts(list, start, exclude);
      var current, passed := start, start;
      while passed < end
        invariant Valid() && Freed() && lists[..] == old(lists[..])[i := lists[i]]
        invariant start <= passed <= end && current == start + if start <= exclude < passed then 1 else 0
        invariant lists[i] == Spared(list, start, passed, exclude)
      {
        SparedStep(list, start, passed, exclude);
        if passed == exclude {
          current := current + 1;
        } else {
          Drop(i, current);
        }
        passed := passed + 1;
      }
    }

    /** A packet over the throttle is dropped with all its commands, the run with the sequence numbers of the first.
        Each command of the run is taken to hold a packet without a look. */
    method DropThrottled(i: nat, k: nat) returns (n: nat)
      requires Valid() && i < lists.Length && k < |lists[i]|
      requires forall t :: k <= t < k + RunLength(lists[i], k) ==> lists[i][t].packet != null
      modifies lists, known
      ensures Valid() && Freed() && n == RunLength(old(lists[i]), k)
      ensures lists[..] == old(lists[..])[i := old(lists[i])[..k] + old(lists[i])[k + n..]]
    {
      hide Holders, Counted, AllKnown;
      ghost var list := lists[i];
      var first := lists[i][k];
      n := 0;
      assert list == list[..k] + list[k..];
      while n == 0 || (k < |lists[i]| && SameNumbers(lists[i][k], first))
        invariant Valid() && Freed() && k + n <= |list| && (n == 0 || n <= RunLength(list, k))
        invariant lists[..] == old(lists[..])[i := lists[i]] && lists[i] == list[..k] + list[k + n..]
        decreases |lists[i]|
      {
        assert n < RunLength(list, k) && lists[i][k] == list[k + n] && lists[i][k].packet != null;
        Drop(i, k);
        n := n + 1;
      }
    }

    /** A run of commands moves to another queue with what it holds. */
    method Move(i: nat, start: nat, end: nat, j: nat, k: nat)
      requires Valid() && i < lists.Length && j < lists.Length && i != j && start <= end <= |lists[i]| && k <= |lists[j]|
      modifies lists
      ensures Valid() && forall p :: p in known ==> Holders(p) == old(Holders(p))
      ensures lists[..] == old(lists[..])[i := old(lists[i])[..start] + old(lists[i])[end..]]
                                         [j := old(lists[j])[..k] + old(lists[i])[start..end] + old(lists[j])[k..]]
    {
      hide Count, CountAll;
      ghost var seen := lists[..];
      var run, rest := lists[i][start..end], lists[i][..start] + lists[i][end..];
      var into := lists[j][..k] + run + lists[j][k..];
      forall p | p in known ensures CountAll(seen[i := rest][j := into], p) == CountAll(seen, p) {
        RunMoved(seen, i, start, end, j, k, p);
      }
      lists[i], lists[j] := rest, into;
      assert lists[..] == seen[i := rest][j := into];
    }

    /** `enet_peer_receive`: the packet passes to the application, which destroys it or sends it again. */
    method Receive(i: nat) returns (packet: SharedPacket?)
      requires Valid() && i < lists.Length && forall k :: 0 <= k < |lists[i]| ==> lists[i][k].packet != null
      modifies lists, known
      ensures Valid() && forall p :: p in known ==>
                && p.destructions == old(p.destructions)
                && old(Holders(p)) == Holders(p) + if p == packet then 1 else 0
      ensures lists[..] == if old(lists[i]) == [] then old(lists[..]) else old(lists[..])[i := old(lists[i])[1..]]
      ensures packet == if old(lists[i]) == [] then null else old(lists[i])[0].packet
      ensures packet != null ==> packet.destructions == 0
    {
      hide Count, CountAll;
      if lists[i] == [] {
        return null;
      }
      ghost var seen := lists[..];
      var list := lists[i][1..];
      packet := lists[i][0].packet;
      assert [] + list == list && lists[i][..0] == [];
      forall p | p in known ensures CountAll(seen, p) == CountAll(seen[i := list], p) + if p == packet then 1 else 0 {
        OneLess(lists[i], 0, p);
        ListReplaced(seen, i, list, p);
      }
      assert Counted(packet);
      packet.referenceCount := packet.referenceCount - 1;
      lists[i] := list;
      assert lists[..] == seen[i := list];
    }

    /** While the commands of packet p are queued, its count runs ahead by those that are still to come. */
    ghost predicate Ahead(p: SharedPacket, n: nat)
      reads this, lists, known, p
    {
      && AllKnown() && p in known && p.destructions == 0 && p.referenceCount == Holders(p) + n
      && forall q :: q in known && q != p ==> Counted(q)
    }

    /** The end of `enet_peer_send`: a packet is queued whole or in fragments, all counted before the first is
        queued. */
    method Send(i: nat, p: SharedPacket, fragments: seq<Entry>)
      requires Valid() && i < lists.Length && p in known && p.destructions == 0
      requires forall k :: 0 <= k < |fragments| ==> fragments[k].packet == p
      modifies lists, p
      ensures Valid() && lists[..] == old(lists[..])[i := old(lists[i]) + fragments] && p.destructions == 0
      ensures Holders(p) == old(Holders(p)) + |fragments|
      ensures forall q :: q in known && q != p ==> Holders(q) == old(Holders(q))
    {
      hide Holders, AllKnown;
      p.referenceCount := p.referenceCount + |fragments|;
      var n: nat := 0;
      while n < |fragments|
        invariant n <= |fragments| && Ahead(p, |fragments| - n) && p.destructions == 0
        invariant lists[..] == old(lists[..])[i := lists[i]] && lists[i] == old(lists[i]) + fragments[..n]
        invariant Holders(p) == old(Holders(p)) + n
        invariant forall q :: q in known && q != p ==> Holders(q) == old(Holders(q))
      {
        Append(i, p, fragments[n], |fragments| - n);
        n := n + 1;
      }
      assert fragments[..n] == fragments;
    }

    /** `enet_peer_setup_outgoing_command` for a command that has been counted. */
    method Append(i: nat, p: SharedPacket, e: Entry, ghost n: nat)
      requires 0 < n && Ahead(p, n) && i < lists.Length && e.packet == p
      modifies lists
      ensures Ahead(p, n - 1) && lists[..] == old(lists[..])[i := old(lists[i]) + [e]]
      ensures forall q :: q in known ==> Holders(q) == old(Holders(q)) + if q == p then 1 else 0
    {
      hide Count, CountAll;
      ghost var seen := lists[..];
      var list := lists[i] + [e];
      assert list == lists[i][..|lists[i]|] + [e] + lists[i][|lists[i]|..];
      forall q | q in known ensures CountAll(seen[i := list], q) == CountAll(seen, q) + if q == p then 1 else 0 {
        OneHolder(lists[i], |lists[i]|, e, q);
        ListReplaced(seen, i, list, q);
      }
      lists[i] := list;
      assert lists[..] == seen[i := list];
    }

    /** `enet_host_broadcast`: a packet that no peer would take is destroyed. `parts[i]` are the commands queued for
        the i-th connected peer, none if its send failed. */
    method Broadcast(queues: seq<nat>, p: SharedPacket, parts: seq<seq<Entry>>)
      requires Valid() && p in known && p.destructions == 0 && |parts| == |queues|
      requires forall i :: 0 <= i < |queues| ==> queues[i] < lists.Length
      requires forall i, k :: 0 <= i < |parts| && 0 <= k < |parts[i]| ==> parts[i][k].packet == p
      modifies lists, p
      ensures Valid() && Holders(p) == old(Holders(p)) + Sizes(parts)
      ensures p.destructions == if Holders(p) == 0 then 1 else 0
      ensures forall q :: q in known && q != p ==> Holders(q) == old(Holders(q))
    {
      hide Holders, AllKnown;
      var i: nat := 0;
      while i < |queues|
        invariant i <= |queues| && Valid() && p.destructions == 0 && Holders(p) == old(Holders(p)) + Sizes(parts[..i])
        invariant forall q :: q in known && q != p ==> Holders(q) == old(Holders(q))
      {
        Send(queues[i], p, parts[i]);
        assert parts[..i + 1][..i] == parts[..i];
        i := i + 1;
      }
      assert parts[..i] == parts && Counted(p);
      if p.referenceCount == 0 {
        p.destructions := p.destructions + 1;
      }
    }

    /** `enet_peer_reset_queues`: all queues of a peer are emptied. */
    method Reset(queues: seq<nat>)
      requires Valid() && forall i :: 0 <= i < |queues| ==> queues[i] < lists.Length
      modifies lists, known
      ensures Valid() && Freed()
      ensures forall j :: 0 <= j < lists.Length ==> lists[j] == if j in queues then [] else old(lists[j])
    {
      hide Holders, Counted, AllKnown;
      var i: nat := 0;
      while i < |queues|
        invariant i <= |queues| && Valid() && Freed()
        invariant forall j :: 0 <= j < lists.Length ==> lists[j] == if j in queues[..i] then [] else old(lists[j])
      {
        ghost var seen := lists[..];
        Empty(queues[i]);
        assert forall j :: 0 <= j < lists.Length ==> lists[j] == lists[..][j];
        i := i + 1;
      }
    }
  }
}
