/** What the receiver of a reliable channel does with each copy that reaches it: what it stores, what it refuses and
    what it acknowledges. The conditions are the numbers of the source; none names the receiver's own tests. */
module Acceptance {
  import opened Fragmentation
  import opened Windows
  import opened Receiving
  import opened Delivery

  /** A command with the first number of packet j is queued. */
  ghost predicate Begun(s: System, j: nat)
    requires j < |s.packets|
  {
    exists a :: 0 <= a < |s.receiver.queue| && s.receiver.queue[a].number == First(s.packets, j)
  }

  /** What the receiver is prepared to store: within the limits, and room for it or a queued beginning. */
  ghost predicate Wanted(s: System, j: nat, full: bool)
    requires j < |s.packets|
  {
    |s.packets[j].data| <= s.limit && Pieces(s.packets[j]) <= 0x10_0000 && (!full || Begun(s, j))
  }

  /** Packet j has not been dispatched and starts less than seven windows ahead. */
  ghost predicate InReach(s: System, j: nat)
    requires j < |s.packets|
  {
    |s.receiver.dispatched| <= j && First(s.packets, j) / 0x1000 < s.receiver.base / 0x1000 + 7
  }

  /** The windows, seen from the receiver, in which a number is not acknowledged. */
  predicate Silent(base: nat, n: nat) {
    || 7 <= n / 0x1000 - base / 0x1000 <= 8
    || 8 <= base / 0x1000 - n / 0x1000 <= 9
  }

  /** A copy of a fragment of a packet not dispatched yet, starting less than seven windows ahead, is stored and
      acknowledged if it is wanted; otherwise nothing happens. */
  lemma {:induction false} TakenExactly(s: System, j: nat, i: nat, full: bool)
    requires Invariant(s) && Enabled(s, Deliver(j, i, full)) && InReach(s, j)
    ensures var t := Step(s, Deliver(j, i, full));
            if Wanted(s, j, full) then
              && Held(t.packets, t.receiver, j, i)
              && t.acks == (if Silent(t.receiver.base, NumberOf(s, j, i)) then s.acks else s.acks + {(j, i)})
            else t == s
  {
    hide Tracks, Settled, First, Pieces, Sound, Narrow, Arrive, TooFar, Held, Command, Advances, Silent, Acknowledges,
         Wanted, Match, Resolve;
    FreshIsSeen(s, j, i, full);
    FreshIsTaken(s, j, i, full);
    DispatchIsNear(s, j, i, full);
    var t := Step(s, Deliver(j, i, full));
    if Wanted(s, j, full) {
      SilentExactly(t.receiver.base, NumberOf(s, j, i));
    }
  }

  /** One that starts seven windows ahead is neither stored nor acknowledged; the sender goes no further. */
  lemma {:induction false} TooEarly(s: System, j: nat, i: nat, full: bool)
    requires Invariant(s) && Enabled(s, Deliver(j, i, full)) && |s.receiver.dispatched| <= j
    requires First(s.packets, j) / 0x1000 >= s.receiver.base / 0x1000 + 7
    ensures Step(s, Deliver(j, i, full)) == s
  {
    hide Tracks, Settled, First, Pieces, Sound, Narrow, Held, Resolve, Dispatch, Find, Place, Marked, Fresh;
    FreshIsSeen(s, j, i, full);
    WindowsApart(First(s.packets, j), NumberOf(s, j, i));
    WindowsApart(NumberOf(s, j, i), s.sent);
    StartsAhead(s.packets, s.receiver, s.sent, j);
    AheadIsSeen(s.receiver.base, NumberOf(s, j, i));
  }

  /** A copy of something dispatched is acknowledged again, so that a lost acknowledgement does no harm. */
  lemma {:induction false} RepeatedIsAcknowledged(s: System, j: nat, i: nat, full: bool)
    requires Invariant(s) && Enabled(s, Deliver(j, i, full)) && j < |s.receiver.dispatched|
    requires |s.packets[j].data| <= s.limit
    ensures Step(s, Deliver(j, i, full)) ==
            if Silent(s.receiver.base, NumberOf(s, j, i)) then s else s.(acks := s.acks + {(j, i)})
  {
    hide Tracks, Settled, First, Sound, Narrow, Resolve, Silent, Acknowledges, Pieces, Command, Arrive;
    StaleIsIgnored(s, j, i, full);
    StaleIsTaken(s, j, i, full);
    SilentAfter(s, j, i, full);
  }

  /** A number in flight is acknowledged whenever its packet starts less than seven windows ahead and ends there. */
  lemma {:induction false} InFlightIsAcknowledged(s: System, j: nat, i: nat)
    requires Invariant(s) && Enabled(s, Deliver(j, i, false)) && NumberOf(s, j, i) in s.inFlight
    requires |s.packets[j].data| <= s.limit && Pieces(s.packets[j]) <= 0x10_0000
    requires NumberOf(s, j, i) / 0x1000 < s.receiver.base / 0x1000 + 7
    ensures var t := Step(s, Deliver(j, i, false)); (j, i) in t.acks && Held(t.packets, t.receiver, j, i)
  {
    hide Tracks, Settled, First, Pieces, Sound, Narrow, Arrive, Command, Step, Match, Resolve, Begun;
    WindowsApart(First(s.packets, j), NumberOf(s, j, i));
    assert Narrow(s);
    InFlightIsRecent(s, NumberOf(s, j, i));
    BaseOf(s);
    WindowsApart(s.receiver.base, s.sent);
    if j < |s.receiver.dispatched| {
      RepeatedIsAcknowledged(s, j, i, false);
    } else {
      TakenExactly(s, j, i, false);
      DispatchIsNear(s, j, i, false);
    }
  }

  lemma {:induction false} InFlightIsRecent(s: System, n: nat)
    requires Narrow(s) && n in s.inFlight
    ensures s.sent / 0x1000 <= n / 0x1000 + 6
  {
  }

  lemma {:induction false} SilentExactly(base: nat, n: nat)
    requires WindowOf(n) <= WindowOf(base) + FREE_WINDOWS && WindowOf(base) <= WindowOf(n) + STALE
    ensures Silent(base, n) <==> !Acknowledges(base, Resolve(base, Wire(n)))
  {
    hide Resolve;
    WindowsApart(n, base);
    WindowsApart(base, n);
    LaterWindow(n);
    ResolveRecognises(base, n);
  }

  /** The numbers of a packet that is not dispatched are recognised. */
  lemma {:induction false} FreshIsSeen(s: System, j: nat, i: nat, full: bool)
    requires Invariant(s) && Enabled(s, Deliver(j, i, full)) && |s.receiver.dispatched| <= j
    ensures s.receiver.base < First(s.packets, j) <= NumberOf(s, j, i) <= s.sent
    ensures WindowOf(s.sent) <= WindowOf(s.receiver.base) + 7
    ensures Resolved(s.receiver.base, OnWire(Command(s.packets, j, i))) == Command(s.packets, j, i)
  {
    hide Tracks, Settled, First, Pieces, Sound, Narrow, Command;
    var r, n := s.receiver, NumberOf(s, j, i);
    StartsAhead(s.packets, r, s.sent, j);
    WindowsApart(n, s.sent);
    WindowsApart(First(s.packets, j), n);
    AheadIsSeen(r.base, n);
    AheadIsSeen(r.base, First(s.packets, j));
    ResolvedExactly(r.base, Command(s.packets, j, i));
  }

  /** Every fragment has a byte, and a packet has no more fragments than bytes. */
  lemma {:induction false} PieceIsSmall(s: System, j: nat, i: nat)
    requires Cuttable(s.packets) && Exists(s, j, i)
    ensures var m := Command(s.packets, j, i);
            && |m.data| <= |s.packets[j].data|
            && (m.Piece? ==> && 0 < |m.data| <= m.total - m.offset && m.index < m.count <= m.total == |s.packets[j].data|
                             && m.count == Pieces(s.packets[j]))
  {
    var p := s.packets[j];
    if Pieces(p) > 1 {
      CountBounds(|p.data|, p.piece, i);
      CountBounds(|p.data|, p.piece, |p.data|);
      assert |p.data| <= |p.data| * p.piece;
    }
  }

  /** The receiver takes what is wanted, and then holds it. */
  lemma {:induction false} FreshIsTaken(s: System, j: nat, i: nat, full: bool)
    requires Invariant(s) && Exists(s, j, i) && InReach(s, j) && NumberOf(s, j, i) <= s.sent
    ensures var outcome := Arrive(s.receiver, Command(s.packets, j, i), s.limit, full);
            if Wanted(s, j, full) then outcome.Taken? && Held(s.packets, outcome.receiver, j, i) else outcome.Refused?
  {
    hide Tracks, Settled, First, Pieces, Sound, Narrow, Dispatch, Place, Fresh, Marked, Find, Held, Match;
    PieceIsSmall(s, j, i);
    StartsAhead(s.packets, s.receiver, s.sent, j);
    BegunIsFound(s, j);
    if Pieces(s.packets[j]) == 1 {
      ArriveWhole(s.packets, s.receiver, s.sent, j, s.limit, full);
    } else {
      ArrivePiece(s.packets, s.receiver, s.sent, j, i, s.limit, full);
    }
  }

  lemma {:induction false} BegunIsFound(s: System, j: nat)
    requires Invariant(s) && j < |s.packets|
    ensures var k := Find(s.receiver.queue, First(s.packets, j));
            && (Begun(s, j) <==> k < |s.receiver.queue|)
            && (Begun(s, j) && Pieces(s.packets[j]) > 1 ==>
                  s.receiver.queue[k].count == Pieces(s.packets[j]) && |s.receiver.queue[k].data| == |s.packets[j].data|)
  {
    hide First, Pieces, Find;
    var k := Find(s.receiver.queue, First(s.packets, j));
    if Begun(s, j) {
      QueuedMatches(s.packets, s.receiver, s.sent, k, j);
    }
  }

  /** A dispatch moves the receiver on by at most seven windows, however long the packets are. */
  lemma {:induction false} DispatchIsNear(s: System, j: nat, i: nat, full: bool)
    requires Invariant(s) && Enabled(s, Deliver(j, i, full))
    ensures var t := Step(s, Deliver(j, i, full));
            && s.receiver.base <= t.receiver.base <= s.sent
            && WindowOf(t.receiver.base) <= WindowOf(s.sent) <= WindowOf(s.receiver.base) + 7
  {
    hide Step, Tracks, Sound, Settled, Cuttable;
    DeliverKeeps(s, j, i, full);
    DeliverAdvances(s, j, i, full);
    var t := Step(s, Deliver(j, i, full));
    BaseOf(t);
    WindowsApart(t.receiver.base, t.sent);
  }

  lemma {:induction false} DeliverAdvances(s: System, j: nat, i: nat, full: bool)
    requires Invariant(s) && Enabled(s, Deliver(j, i, full))
    ensures var t := Step(s, Deliver(j, i, full));
            && s.receiver.base <= t.receiver.base
            && t == s.(receiver := t.receiver, acks := t.acks)
  {
    hide Invariant, Arrive, Acknowledges, Held, Tracks, Settled, Command;
    DeliverReceives(s, j, i, full);
  }

  /** What comes of a copy: the receiver afterwards, and whether an acknowledgement is queued. */
  ghost predicate Answered(s: System, j: nat, i: nat, full: bool, after: Receiver, acknowledged: bool)
    requires j < |s.packets|
  {
    && (InReach(s, j) ==>
          if Wanted(s, j, full) then
            Held(s.packets, after, j, i) && (acknowledged <==> !Silent(after.base, NumberOf(s, j, i)))
          else after == s.receiver && !acknowledged)
    && (j < |s.receiver.dispatched| && |s.packets[j].data| <= s.limit ==>
          after == s.receiver && (acknowledged <==> !Silent(after.base, NumberOf(s, j, i))))
  }

  lemma {:induction false} AnsweredExactly(s: System, j: nat, i: nat, full: bool)
    requires Invariant(s) && Enabled(s, Deliver(j, i, full))
    ensures var after, n := Step(s, Deliver(j, i, full)).receiver, Wire(NumberOf(s, j, i));
            var outcome := Arrive(s.receiver, Resolved(s.receiver.base, OnWire(Command(s.packets, j, i))), s.limit, full);
            Answered(s, j, i, full, after, outcome.Taken? && Acknowledges(after.base, Resolve(after.base, n)))
  {
    hide Tracks, Settled, First, Pieces, Sound, Narrow, Silent, Acknowledges, Wanted, Command, Arrive, Held, Resolve;
    SilentAfter(s, j, i, full);
    if InReach(s, j) {
      FreshIsSeen(s, j, i, full);
      FreshIsTaken(s, j, i, full);
    } else if j < |s.receiver.dispatched| && |s.packets[j].data| <= s.limit {
      StaleIsIgnored(s, j, i, full);
      StaleIsTaken(s, j, i, full);
    }
  }

  lemma {:induction false} SilentAfter(s: System, j: nat, i: nat, full: bool)
    requires Invariant(s) && Enabled(s, Deliver(j, i, full))
    ensures var base, n := Step(s, Deliver(j, i, full)).receiver.base, NumberOf(s, j, i);
            Silent(base, n) <==> !Acknowledges(base, Resolve(base, Wire(n)))
  {
    hide Tracks, Settled, First, Pieces, Sound, Narrow, Silent, Acknowledges, Arrive, Step, Resolve, Command;
    DispatchIsNear(s, j, i, full);
    var t := Step(s, Deliver(j, i, full));
    WindowsApart(NumberOf(s, j, i), s.sent);
    WindowsApart(s.receiver.base, t.receiver.base);
    WindowsApart(First(s.packets, j), NumberOf(s, j, i));
    if j < |s.receiver.dispatched| {
      StaleStays(s, j, i, full);
    } else {
      FreshIsSeen(s, j, i, full);
      WindowsApart(s.receiver.base, NumberOf(s, j, i));
    }
    SilentExactly(t.receiver.base, NumberOf(s, j, i));
  }

  lemma {:induction false} StaleStays(s: System, j: nat, i: nat, full: bool)
    requires Invariant(s) && Enabled(s, Deliver(j, i, full)) && j < |s.receiver.dispatched|
    ensures Step(s, Deliver(j, i, full)).receiver == s.receiver
  {
    hide Invariant, Arrive, Command, Resolve, Acknowledges;
    StaleIsIgnored(s, j, i, full);
  }

  lemma {:induction false} StaleIsTaken(s: System, j: nat, i: nat, full: bool)
    requires Invariant(s) && Enabled(s, Deliver(j, i, full)) && j < |s.receiver.dispatched|
    requires |s.packets[j].data| <= s.limit
    ensures Arrive(s.receiver, Resolved(s.receiver.base, OnWire(Command(s.packets, j, i))), s.limit, full).Taken?
  {
    hide Tracks, Settled, First, Pieces, Sound, Narrow, Dispatch, Find, Place, Marked, Fresh, Resolve, TooFar;
    BaseOf(s);
    FirstGrows(s.packets, j, |s.receiver.dispatched|);
    BehindIsTooFar(s.receiver.base, First(s.packets, j));
    PieceIsSmall(s, j, i);
  }

  // Complete packets.

  /** Whatever is received, the packet that comes next has a fragment that is still missing. */
  lemma {:induction false} CompleteIsDispatched(limit: nat, events: seq<Event>, k: nat)
    requires k < |Run(limit, events).packets| && k <= |Run(limit, events).receiver.dispatched|
    requires var s := Run(limit, events); forall i :: 0 <= i < Pieces(s.packets[k]) ==> Held(s.packets, s.receiver, k, i)
    ensures var s := Run(limit, events); k < |s.receiver.dispatched| && s.receiver.dispatched[k] == s.packets[k].data
  {
    hide Run, Held, Pieces;
    var s := Run(limit, events);
    RunKeeps(limit, events);
    CompleteIsNext(s, k);
  }

  lemma {:induction false} CompleteIsNext(s: System, k: nat)
    requires Invariant(s) && k < |s.packets| && k <= |s.receiver.dispatched|
    requires forall i :: 0 <= i < Pieces(s.packets[k]) ==> Held(s.packets, s.receiver, k, i)
    ensures k < |s.receiver.dispatched| && s.receiver.dispatched[k] == s.packets[k].data
  {
    if k == |s.receiver.dispatched| {
      var i := MissingPiece(s.packets, s.receiver, s.sent);
      assert false;
    }
  }

  /** The copies of fragments `indices` of packet k, one after the other. */
  function Delivered(s: System, k: nat, indices: seq<nat>): System {
    if indices == [] then s
    else
      var t := Delivered(s, k, indices[..|indices| - 1]);
      var e := Deliver(k, indices[|indices| - 1], false);
      if Enabled(t, e) then Step(t, e) else t
  }

  /** Once all of the next packet has been sent, a copy of each of its fragments, in any order and with any
      repetitions, makes the receiver dispatch it. */
  lemma {:induction false} NextIsDispatched(s: System, k: nat, indices: seq<nat>)
    requires Invariant(s) && k == |s.receiver.dispatched| < |s.packets| && First(s.packets, k + 1) <= s.sent + 1
    requires |s.packets[k].data| <= s.limit && Pieces(s.packets[k]) <= 0x10_0000
    requires forall i :: 0 <= i < Pieces(s.packets[k]) ==> i in indices
    requires forall i :: i in indices ==> i < Pieces(s.packets[k])
    ensures var t := Delivered(s, k, indices); k < |t.receiver.dispatched| && t.receiver.dispatched[k] == s.packets[k].data
  {
    hide Held, Pieces, First, Invariant, Delivered;
    AllAreHeld(s, k, indices);
    CompleteIsNext(Delivered(s, k, indices), k);
  }

  lemma {:induction false} AllAreHeld(s: System, k: nat, indices: seq<nat>)
    requires Invariant(s) && k == |s.receiver.dispatched| < |s.packets| && First(s.packets, k + 1) <= s.sent + 1
    requires |s.packets[k].data| <= s.limit && Pieces(s.packets[k]) <= 0x10_0000
    requires forall i :: i in indices ==> i < Pieces(s.packets[k])
    ensures var t := Delivered(s, k, indices);
            && Invariant(t) && t.packets == s.packets && t.sent == s.sent && t.limit == s.limit
            && s.receiver.base <= t.receiver.base && k <= |t.receiver.dispatched|
            && forall i :: i in indices ==> Held(t.packets, t.receiver, k, i)
  {
    hide Held, Pieces, First, Invariant, Step, Enabled;
    if indices != [] {
      var before, i := indices[..|indices| - 1], indices[|indices| - 1];
      assert i in indices && forall h :: h in before ==> h in indices;
      AllAreHeld(s, k, before);
      var t := Delivered(s, k, before);
      DeliverHolds(s, t, k, i);
      forall h | h in indices ensures Held(t.packets, Delivered(s, k, indices).receiver, k, h) {
        assert h == i || h in before;
      }
    }
  }

  lemma {:induction false} DeliverHolds(s: System, t: System, k: nat, i: nat)
    requires Invariant(s) && k == |s.receiver.dispatched| < |s.packets| && i < Pieces(s.packets[k])
    requires First(s.packets, k + 1) <= s.sent + 1
    requires |s.packets[k].data| <= s.limit && Pieces(s.packets[k]) <= 0x10_0000
    requires Invariant(t) && t.packets == s.packets && t.sent == s.sent && t.limit == s.limit
    requires s.receiver.base <= t.receiver.base && k <= |t.receiver.dispatched|
    ensures Enabled(t, Deliver(k, i, false))
    ensures var u := Step(t, Deliver(k, i, false));
            && Invariant(u) && u.packets == s.packets && u.sent == s.sent && u.limit == s.limit
            && t.receiver.base <= u.receiver.base && k <= |u.receiver.dispatched|
            && Held(u.packets, u.receiver, k, i)
            && forall h: nat :: Held(t.packets, t.receiver, k, h) ==> Held(u.packets, u.receiver, k, h)
  {
    hide Held, Pieces, First, Step, Tracks, Settled, Sound, Narrow;
    NextEnabled(s, t, k, i);
    DeliverKeeps(t, k, i, false);
    DeliverAdvances(t, k, i, false);
    DeliverKeepsHeld(t, k, i, false);
    DispatchedGrow(s, Step(t, Deliver(k, i, false)));
    if k < |t.receiver.dispatched| {
      DispatchedIsHeld(t, k, i);
    } else {
      TakenExactly(t, k, i, false);
    }
  }

  lemma {:induction false} NextEnabled(s: System, t: System, k: nat, i: nat)
    requires Invariant(s) && k == |s.receiver.dispatched| < |s.packets| && i < Pieces(s.packets[k])
    requires First(s.packets, k + 1) <= s.sent + 1
    requires Invariant(t) && t.packets == s.packets && t.sent == s.sent && s.receiver.base <= t.receiver.base
    ensures Enabled(t, Deliver(k, i, false))
    ensures First(s.packets, k) / 0x1000 < t.receiver.base / 0x1000 + 7
  {
    hide Pieces, Tracks, Settled, Sound, Narrow;
    BaseOf(s);
    BaseOf(t);
    WindowsApart(t.receiver.base, t.sent);
    WindowsApart(s.receiver.base, First(s.packets, k));
  }

  lemma {:induction false} DispatchedIsHeld(s: System, j: nat, i: nat)
    requires j < |s.receiver.dispatched| && j < |s.packets|
    ensures Held(s.packets, s.receiver, j, i)
  {
  }

  lemma {:induction false} DispatchedGrow(s: System, t: System)
    requires Invariant(s) && Invariant(t) && t.packets == s.packets && s.receiver.base <= t.receiver.base
    ensures |s.receiver.dispatched| <= |t.receiver.dispatched|
  {
    if |t.receiver.dispatched| < |s.receiver.dispatched| {
      FirstGrows(s.packets, |t.receiver.dispatched|, |s.receiver.dispatched|);
    }
  }

  /** A delivery forgets nothing. */
  lemma {:induction false} DeliverKeepsHeld(s: System, j: nat, i: nat, full: bool)
    requires Invariant(s) && Enabled(s, Deliver(j, i, full))
    ensures var t := Step(s, Deliver(j, i, full));
            forall l: nat, h: nat :: l < |s.packets| && Held(s.packets, s.receiver, l, h) ==> Held(t.packets, t.receiver, l, h)
  {
    hide Invariant, Arrive, Acknowledges, Held, Tracks, Settled, Command;
    DeliverReceives(s, j, i, full);
  }
}
