/** A channel over whole runs: packets of both kinds are sent, the network loses, repeats and reorders the unreliable ones,
    and the receiver hands over what it may. */
module ChannelRuns {
  import opened Windows
  import opened ChannelOrder

  /** What the channel at the receiving end holds. */
  datatype State = State(base: nat, u: nat, queue: seq<Item>, packets: seq<Packet>)

  datatype World = World(sent: seq<Packet>, s: State)

  /** A packet is sent; a copy of an unreliable one arrives; a fragment of a queued one arrives; the reliable packets with
      these numbers are handed over, up to number `next`. */
  datatype Event =
    | Send(packet: Packet)
    | Arrive(i: nat, full: bool)
    | Fragment(k: nat)
    | HandOver(numbers: seq<nat>, next: nat)

  /** The packet with its numbers, whatever is missing of it. */
  predicate Same(p: Packet, q: Packet) {
    match (p, q)
    case (Reliable(n), Reliable(m)) => n == m
    case (Unreliable(x), Unreliable(y)) => SamePlace(x, y) && x.unsequenced == y.unsequenced
    case _ => false
  }

  predicate Increasing(numbers: seq<nat>) { forall i, j :: 0 <= i < j < |numbers| ==> numbers[i] < numbers[j] }

  /** A copy of a sequenced packet arrives while its number is at most nine windows behind the receiver and less than 2^16
      ahead of it. */
  predicate InTime(x: Item, base: nat) { x.unsequenced || (WindowOf(base) <= WindowOf(x.number) + 9 && x.number < base + SPAN) }

  predicate Enabled(w: World, e: Event) {
    match e
    case Send(p) =>
      && (p.Unreliable? && !p.item.unsequenced ==> p.item.unreliable > 0)
      && forall q :: q in w.sent && !Loose(q) && !Loose(p) ==> Precedes(q, p)
    case Arrive(i, _) => i < |w.sent| && w.sent[i].Unreliable? && InTime(w.sent[i].item, w.s.base)
    case Fragment(k) => k < |w.s.queue| && w.s.queue[k].remaining > 0
    case HandOver(numbers, next) =>
      && numbers != [] && Increasing(numbers) && numbers[0] > w.s.base && numbers[|numbers| - 1] <= next
      && WindowOf(next) <= WindowOf(w.s.base) + 9 && forall n :: n in numbers ==> Reliable(n) in w.sent
  }

  /** What 16 bits of a copy are taken for. */
  function TakenFor(x: Item, base: nat): Item { if x.unsequenced then x else x.(number := Resolve(base, Wire(x.number))) }

  /** The place behind the commands that come before x. */
  function PlaceFor(queue: seq<Item>, x: Item): (k: nat)
    ensures k <= |queue|
  {
    if x.unsequenced then 0
    else if queue == [] || Less(queue[|queue| - 1], x) then |queue|
    else PlaceFor(queue[..|queue| - 1], x)
  }

  function Dispatched(s: State, queued: int): State {
    var ready := s.queue[..Stop(s.queue, s.base)];
    State(s.base, LastUnreliable(ready, s.base, s.u), Left(s.queue, s.base, queued), s.packets + ReadyOnes(ready, s.base))
  }

  function AfterArrival(s: State, x: Item, full: bool): State {
    if full || !Wanted(x, s.base, s.u, s.queue) then s
    else var k := PlaceFor(s.queue, x); Dispatched(s.(queue := s.queue[..k] + [x] + s.queue[k..]), k)
  }

  function AfterFragment(s: State, k: nat): State
    requires k < |s.queue| && s.queue[k].remaining > 0
  {
    var x := s.queue[k].(remaining := s.queue[k].remaining - 1);
    if x.remaining > 0 then s.(queue := s.queue[k := x]) else Dispatched(s.(queue := s.queue[k := x]), -1)
  }

  function Step(w: World, e: Event): World
    requires Enabled(w, e)
  {
    match e
    case Send(p) => w.(sent := w.sent + [p])
    case Arrive(i, full) => w.(s := AfterArrival(w.s, TakenFor(w.sent[i].item, w.s.base), full))
    case Fragment(k) => w.(s := AfterFragment(w.s, k))
    case HandOver(numbers, next) =>
      w.(s := Dispatched(State(next, 0, w.s.queue, w.s.packets + AsReliable(numbers)), -1))
  }

  const START := World([], State(0, 0, [], []))

  /** A run: events that are not enabled have no effect. */
  function Run(events: seq<Event>): World {
    if events == [] then START
    else
      var w, e := Run(events[..|events| - 1]), events[|events| - 1];
      if Enabled(w, e) then Step(w, e) else w
  }

  predicate WasSent(p: Packet, sent: seq<Packet>) { exists q :: q in sent && Same(p, q) }

  ghost predicate Invariant(w: World) {
    && Sound(w.s.base, w.s.u, w.s.queue, w.s.packets) && InOrder(w.sent)
    && (forall p :: p in w.sent && p.Unreliable? && !p.item.unsequenced ==> p.item.unreliable > 0)
    && (forall x :: x in w.s.queue ==> WasSent(Unreliable(x), w.sent))
    && forall p :: p in w.s.packets ==> WasSent(p, w.sent)
  }

  // Steps.

  lemma {:induction false} SendKeeps(w: World, p: Packet)
    requires Invariant(w) && Enabled(w, Send(p))
    ensures Invariant(Step(w, Send(p)))
  {
    hide Sound, Same;
    var v := Step(w, Send(p));
    forall q | WasSent(q, w.sent) ensures WasSent(q, v.sent) {
      var r :| r in w.sent && Same(q, r);
      assert r in v.sent;
    }
  }

  /** A copy that is wanted was taken for what it is. */
  lemma {:induction false} WantedIsItself(x: Item, s: State)
    requires InTime(x, s.base) && Wanted(TakenFor(x, s.base), s.base, s.u, s.queue)
    ensures TakenFor(x, s.base) == x
  {
    if !x.unsequenced {
      ResolveRecognises(s.base, x.number);
      LaterWindow(x.number);
    }
  }

  lemma {:induction false} PlaceIsBehind(queue: seq<Item>, x: Item)
    requires Ordered(queue) && (forall y :: y in queue ==> !y.unsequenced && !SamePlace(x, y)) && !x.unsequenced
    ensures var k := PlaceFor(queue, x); forall i :: 0 <= i < |queue| ==> if i < k then Less(queue[i], x) else Less(x, queue[i])
  {
    if queue != [] {
      var n := |queue| - 1;
      assert queue[n] in queue;
      if !Less(queue[n], x) {
        PlaceIsBehind(queue[..n], x);
      } else {
        assert forall i :: 0 <= i < n ==> queue[i] in queue;
      }
    }
  }

  lemma {:induction false} ReadyFrom(queue: seq<Item>, base: nat, p: Packet)
    requires p in ReadyOnes(queue, base)
    ensures p.Unreliable? && p.item in queue
  {
    if queue != [] && p in ReadyOnes(queue[..|queue| - 1], base) { ReadyFrom(queue[..|queue| - 1], base, p); }
  }

  ghost predicate AllSent(queue: seq<Item>, packets: seq<Packet>, sent: seq<Packet>) {
    (forall x :: x in queue ==> WasSent(Unreliable(x), sent)) && forall p :: p in packets ==> WasSent(p, sent)
  }

  lemma {:induction false} DispatchKeepsSent(s: State, queued: int, sent: seq<Packet>)
    requires AllSent(s.queue, s.packets, sent)
    ensures AllSent(Dispatched(s, queued).queue, Dispatched(s, queued).packets, sent)
  {
    hide WasSent, ReadyOnes, LastUnreliable, Stop, Spare;
    var ready := s.queue[..Stop(s.queue, s.base)];
    forall p | p in ReadyOnes(ready, s.base) ensures WasSent(p, sent) {
      ReadyFrom(ready, s.base, p);
      assert p.item in s.queue;
    }
  }

  lemma {:induction false} ArriveKeeps(w: World, i: nat, full: bool)
    requires Invariant(w) && Enabled(w, Arrive(i, full))
    ensures Invariant(Step(w, Arrive(i, full)))
  {
    hide WasSent, ReadyOnes, LastUnreliable, Stop, Spare, Left, Ordered, InOrder, Dispatched, PlaceFor;
    var s, x := w.s, w.sent[i].item;
    if !full && Wanted(TakenFor(x, s.base), s.base, s.u, s.queue) {
      WantedIsItself(x, s);
      var k := PlaceFor(s.queue, x);
      var after := s.queue[..k] + [x] + s.queue[k..];
      assert Insertable(s.base, s.u, s.queue, s.packets, x, k) by { CanBeInserted(w, x); }
      InsertPends(s.base, s.u, s.queue, s.packets, x, k);
      DispatchedIsSound(s.(queue := after), k);
      assert WasSent(Unreliable(x), w.sent) by { SentIsSent(w.sent, i); }
      assert AllSent(after, s.packets, w.sent);
      DispatchKeepsSent(s.(queue := after), k, w.sent);
    }
  }

  lemma {:induction false} SentIsSent(sent: seq<Packet>, i: nat)
    requires i < |sent|
    ensures WasSent(sent[i], sent)
  {
    assert Same(sent[i], sent[i]);
  }

  lemma {:induction false} CanBeInserted(w: World, x: Item)
    requires Invariant(w) && Unreliable(x) in w.sent && Wanted(x, w.s.base, w.s.u, w.s.queue) && TakenFor(x, w.s.base) == x
    ensures Insertable(w.s.base, w.s.u, w.s.queue, w.s.packets, x, PlaceFor(w.s.queue, x))
  {
    hide WasSent, Ordered, InOrder;
    if !x.unsequenced { PlaceIsBehind(w.s.queue, x); }
  }

  lemma {:induction false} DispatchedIsSound(s: State, queued: int)
    requires Pending(s.base, s.u, s.queue, s.packets, queued)
    ensures var t := Dispatched(s, queued); Sound(t.base, t.u, t.queue, t.packets)
  {
    hide Pending, Sound;
    DispatchIsSound(s.base, s.u, s.queue, s.packets, queued);
  }

  lemma {:induction false} FragmentKeeps(w: World, k: nat)
    requires Invariant(w) && Enabled(w, Fragment(k))
    ensures Invariant(Step(w, Fragment(k)))
  {
    hide WasSent, ReadyOnes, LastUnreliable, Stop, Spare, Left, Ordered, InOrder, Dispatched, Waits;
    var s := w.s;
    var x := s.queue[k].(remaining := s.queue[k].remaining - 1);
    UpdatePends(s.base, s.u, s.queue, s.packets, k, x);
    assert WasSent(Unreliable(x), w.sent) by { AnotherCopy(s.queue[k], x, w.sent); }
    var after := s.(queue := s.queue[k := x]);
    assert AllSent(after.queue, s.packets, w.sent);
    if x.remaining == 0 {
      DispatchedIsSound(after, -1);
      DispatchKeepsSent(after, -1, w.sent);
    }
  }

  lemma {:induction false} AnotherCopy(x: Item, y: Item, sent: seq<Packet>)
    requires WasSent(Unreliable(x), sent) && SamePlace(x, y) && x.unsequenced == y.unsequenced
    ensures WasSent(Unreliable(y), sent)
  {
    var q :| q in sent && Same(Unreliable(x), q);
    assert Same(Unreliable(y), q);
  }

  lemma {:induction false} HandOverKeeps(w: World, numbers: seq<nat>, next: nat)
    requires Invariant(w) && Enabled(w, HandOver(numbers, next))
    ensures Invariant(Step(w, HandOver(numbers, next)))
  {
    hide WasSent, ReadyOnes, LastUnreliable, Stop, Spare, Left, Ordered, InOrder, Dispatched, Waits, AsReliable;
    var s := w.s;
    ReliablePends(s.base, s.u, s.queue, s.packets, numbers, next);
    var after := State(next, 0, s.queue, s.packets + AsReliable(numbers));
    forall p | p in AsReliable(numbers) ensures WasSent(p, w.sent) {
      var j :| 0 <= j < |numbers| && AsReliable(numbers)[j] == p;
      assert numbers[j] in numbers;
      var i :| 0 <= i < |w.sent| && w.sent[i] == p;
      SentIsSent(w.sent, i);
    }
    assert AllSent(after.queue, after.packets, w.sent);
    DispatchedIsSound(after, -1);
    DispatchKeepsSent(after, -1, w.sent);
  }

  lemma {:induction false} RunKeeps(events: seq<Event>)
    ensures Invariant(Run(events))
  {
    if events != [] {
      hide Invariant, Enabled, Step;
      var w, e := Run(events[..|events| - 1]), events[|events| - 1];
      RunKeeps(events[..|events| - 1]);
      if Enabled(w, e) {
        match e
        case Send(p) => SendKeeps(w, p);
        case Arrive(i, full) => ArriveKeeps(w, i, full);
        case Fragment(k) => FragmentKeeps(w, k);
        case HandOver(numbers, next) => HandOverKeeps(w, numbers, next);
      }
    }
  }

  // What it comes to.

  /** In every run, what the channel hands over in sequence was sent, and in the order in which it was sent: of two packets
      handed over one after the other the first was sent before the second. So nothing is handed over twice. */
  lemma {:induction false} HandedOverInOrder(events: seq<Event>, a: nat, b: nat)
    requires a < b < |Run(events).s.packets| && !Loose(Run(events).s.packets[a]) && !Loose(Run(events).s.packets[b])
    ensures var w := Run(events);
            exists i, j :: 0 <= i < j < |w.sent| && Same(w.s.packets[a], w.sent[i]) && Same(w.s.packets[b], w.sent[j])
    ensures !Same(Run(events).s.packets[a], Run(events).s.packets[b])
  {
    hide Run, Sound;
    var w := Run(events);
    RunKeeps(events);
    var p, q := w.s.packets[a], w.s.packets[b];
    assert Precedes(p, q) by { SoundIsInOrder(w.s); }
    var i := SentAt(p, w.sent);
    var j := SentAt(q, w.sent);
    SameOrder(p, w.sent[i], q, w.sent[j]);
    if j <= i { assert false; }
  }

  lemma {:induction false} SoundIsInOrder(s: State)
    requires Sound(s.base, s.u, s.queue, s.packets)
    ensures InOrder(s.packets)
  {
  }

  lemma {:induction false} SentAt(p: Packet, sent: seq<Packet>) returns (i: nat)
    requires WasSent(p, sent)
    ensures i < |sent| && Same(p, sent[i])
  {
    var q :| q in sent && Same(p, q);
    i :| 0 <= i < |sent| && sent[i] == q;
  }

  lemma {:induction false} SameOrder(p: Packet, p': Packet, q: Packet, q': Packet)
    requires Precedes(p, q) && Same(p, p') && Same(q, q') && !Loose(p) && !Loose(q)
    ensures Precedes(p', q') && !Precedes(q', p') && p' != q' && !Same(p, q) && !Loose(p') && !Loose(q')
  {
  }

  /** What was sent stays in order itself, so that the packets handed over pick out a part of it. */
  lemma {:induction false} HandedOverWasSent(events: seq<Event>, a: nat)
    requires a < |Run(events).s.packets|
    ensures WasSent(Run(events).s.packets[a], Run(events).sent) && InOrder(Run(events).sent)
  {
    hide Run, Sound;
    RunKeeps(events);
  }

  /** A copy ahead of the receiver is taken for what it is if and only if its number is less than 2^16 ahead. */
  lemma {:induction false} TakenExactly(x: Item, base: nat)
    requires !x.unsequenced && base <= x.number
    ensures TakenFor(x, base) == x <==> x.number < base + SPAN
  {
    if x.number < base + SPAN { ResolveRecognises(base, x.number); } else { NeverSoFar(base, Wire(x.number)); }
  }

  lemma {:induction false} NeverSoFar(base: nat, w: nat)
    requires w < SPAN
    ensures base <= Resolve(base, w) < base + SPAN
  {
  }

  /** Otherwise order is lost: an unreliable packet sent under reliable number 65537, while 65537 reliable packets wait to be
      sent, is handed over right behind the first of them. */
  lemma {:induction false} HandedOverEarly()
    ensures var late, taken := Item(SPAN + 1, 1, false, 0), Item(1, 1, false, 0);
            && TakenFor(late, 0) == taken
            && var s := AfterArrival(State(0, 0, [], []), taken, false);
               s.queue == [taken] && s.packets == []
               && Dispatched(State(1, 0, s.queue, [Reliable(1)]), -1).packets == [Reliable(1), Unreliable(taken)]
  {
    hide AfterArrival, Dispatched;
    var taken := Item(1, 1, false, 0);
    assert Wire(SPAN + 1) == 1 && Resolve(0, 1) == 1;
    OneWaitsForIt(taken);
    OneGoes(taken);
  }

  lemma {:induction false} OneWaitsForIt(x: Item)
    requires x == Item(1, 1, false, 0)
    ensures var s := AfterArrival(State(0, 0, [], []), x, false); s.queue == [x] && s.packets == []
  {
    assert [] + [x] + [] == [x] && [x][..0] == [];
    StopAt([x], 0, 0);
    NothingReady(0, 0);
  }

  lemma {:induction false} OneGoes(x: Item)
    requires x == Item(1, 1, false, 0)
    ensures Dispatched(State(1, 0, [x], [Reliable(1)]), -1).packets == [Reliable(1), Unreliable(x)]
  {
    assert [x][..1] == [x] && [x][..0] == [];
    StopAt([x], 1, 1);
    NothingReady(1, 0);
    ReadyMore([x], 1, 0, 0);
  }

  /** A run in which a command is freed that nothing has overtaken: three unreliable packets with fragments missing. */
  lemma {:induction false} FreedWaiting(a: Item, b: Item, c: Item)
    requires Incomplete(a, 0) && Incomplete(b, 0) && Incomplete(c, 0) && 0 < a.unreliable < b.unreliable < c.unreliable
    ensures var sends := [Send(Unreliable(a)), Send(Unreliable(b)), Send(Unreliable(c))];
            var w := Run(sends + [Arrive(0, false)] + [Arrive(1, false)] + [Arrive(2, false)]);
            w.s.queue == [b, c] && w.s.packets == [] && w.sent == [Unreliable(a), Unreliable(b), Unreliable(c)]
  {
    var p, q, r := Unreliable(a), Unreliable(b), Unreliable(c);
    assert Precedes(p, q) && Precedes(q, r) && Precedes(p, r) && !a.unsequenced && !b.unsequenced && !c.unsequenced;
    assert a.number == b.number == c.number == 0;
    hide Run, Enabled, Step, AfterArrival, Incomplete, TakenFor, Precedes;
    SentThree(p, q, r);
    var three := [Send(p), Send(q), Send(r)];
    var four := three + [Arrive(0, false)];
    var five := four + [Arrive(1, false)];
    ArrivalsWait(a, b, c);
    ArrivesNext(three, [p, q, r], [], 0, a, [a]);
    ArrivesNext(four, [p, q, r], [a], 1, b, [a, b]);
    ArrivesNext(five, [p, q, r], [a, b], 2, c, [b, c]);
  }

  lemma {:induction false} OneMoreStep(events: seq<Event>, e: Event)
    requires Enabled(Run(events), e)
    ensures Run(events + [e]) == Step(Run(events), e)
  {
    hide Enabled, Step;
    assert (events + [e])[..|events|] == events;
  }

  lemma {:induction false} ArrivesNext(events: seq<Event>, sent: seq<Packet>, queue: seq<Item>, i: nat, x: Item, after: seq<Item>)
    requires Run(events) == World(sent, State(0, 0, queue, [])) && i < |sent| && sent[i] == Unreliable(x)
    requires x.number == 0 && !x.unsequenced && AfterArrival(State(0, 0, queue, []), x, false) == State(0, 0, after, [])
    ensures Run(events + [Arrive(i, false)]) == World(sent, State(0, 0, after, []))
  {
    hide Run, AfterArrival;
    TakenExactly(x, 0);
    OneMoreStep(events, Arrive(i, false));
  }

  lemma {:induction false} SentThree(p: Packet, q: Packet, r: Packet)
    requires p.Unreliable? && q.Unreliable? && r.Unreliable? && !Loose(p) && !Loose(q) && !Loose(r)
    requires p.item.unreliable > 0 && q.item.unreliable > 0 && r.item.unreliable > 0
    requires Precedes(p, q) && Precedes(q, r) && Precedes(p, r)
    ensures Run([Send(p), Send(q), Send(r)]) == World([p, q, r], State(0, 0, [], []))
  {
    hide Run;
    NothingSent();
    assert [] + [Send(p)] == [Send(p)] && [Send(p)] + [Send(q)] == [Send(p), Send(q)];
    assert [Send(p), Send(q)] + [Send(r)] == [Send(p), Send(q), Send(r)];
    assert [] + [p] == [p] && [p] + [q] == [p, q] && [p, q] + [r] == [p, q, r];
    OneMoreStep([], Send(p));
    OneMoreStep([Send(p)], Send(q));
    OneMoreStep([Send(p), Send(q)], Send(r));
  }

  lemma {:induction false} NothingSent()
    ensures Run([]) == START
  {
  }

  lemma {:induction false} ArrivalsWait(a: Item, b: Item, c: Item)
    requires Incomplete(a, 0) && Incomplete(b, 0) && Incomplete(c, 0) && 0 < a.unreliable < b.unreliable < c.unreliable
    ensures AfterArrival(State(0, 0, [], []), a, false) == State(0, 0, [a], [])
    ensures AfterArrival(State(0, 0, [a], []), b, false) == State(0, 0, [a, b], [])
    ensures AfterArrival(State(0, 0, [a, b], []), c, false) == State(0, 0, [b, c], [])
  {
    hide AfterArrival, Left, Incomplete;
    Appended([], a);
    Appended([a], b);
    Appended([a, b], c);
    assert [] + [a] == [a] && [a] + [b] == [a, b] && [a, b] + [c] == [a, b, c];
    FewStay([a], 0);
    FewStay([a, b], 1);
    ThreeWaiting(0, a, b, c);
  }

  /** One or two incomplete commands stay. */
  lemma {:induction false} FewStay(queue: seq<Item>, queued: int)
    requires |queue| == 1 || |queue| == 2
    requires forall i :: 0 <= i < |queue| ==> Incomplete(queue[i], 0)
    ensures Left(queue, 0, queued) == queue
  {
    StopAt(queue, 0, |queue|);
    assert Spare(queue, |queue|, 0) == 0;
    assert [] + queue[0..] == queue;
  }

  lemma {:induction false} AllWait(queue: seq<Item>, base: nat)
    requires forall i :: 0 <= i < |queue| ==> Incomplete(queue[i], base)
    ensures Stop(queue, base) == |queue| && ReadyOnes(queue, base) == [] && LastUnreliable(queue, base, 0) == 0
  {
    StopAt(queue, base, |queue|);
    NoneReady(queue, base, 0, 0, |queue|);
    NothingReady(base, 0);
    assert queue[..0] == [] && queue[..|queue|] == queue;
  }

  lemma {:induction false} Appended(queue: seq<Item>, x: Item)
    requires Incomplete(x, 0) && x.unreliable > 0
    requires forall i :: 0 <= i < |queue| ==> Incomplete(queue[i], 0) && queue[i].unreliable < x.unreliable
    ensures AfterArrival(State(0, 0, queue, []), x, false) == State(0, 0, Left(queue + [x], 0, |queue|), [])
  {
    hide Stop, ReadyOnes, LastUnreliable, Left;
    assert forall y :: y in queue ==> !SamePlace(x, y);
    var after := queue[..|queue|] + [x] + queue[|queue|..];
    assert after == queue + [x];
    AllWait(after, 0);
    assert after[..|after|] == after;
  }

  // What each arrival does.

  /** Nothing with these numbers is queued. */
  predicate Absent(queue: seq<Item>, x: Item) {
    forall y :: y in queue ==> y.number != x.number || y.unreliable != x.unreliable
  }

  /** A copy of a sequenced packet is taken if there is room and it is not behind: its reliable number is the receiver's and
      its unreliable number a later one, or it lies ahead by less than seven windows; and nothing like it is queued. If it is
      complete and under the receiver's number it is handed over at once, otherwise it waits. Nothing else is handed over. */
  lemma {:induction false} ArrivesExactly(w: World, i: nat, full: bool)
    requires Invariant(w) && Enabled(w, Arrive(i, full)) && !w.sent[i].item.unsequenced
    ensures var s, x, t := w.s, w.sent[i].item, Step(w, Arrive(i, full)).s;
            if !full && s.base <= x.number && x.number / 0x1000 < s.base / 0x1000 + 7
               && (x.number == s.base ==> x.unreliable > s.u) && Absent(s.queue, x) then
              if x.number == s.base && x.remaining == 0 then
                t.packets == s.packets + [Unreliable(x)] && t.u == x.unreliable && t.base == s.base
              else t.packets == s.packets && t.u == s.u && t.base == s.base && x in t.queue
            else t == s
  {
    hide WasSent, ReadyOnes, LastUnreliable, Stop, Left, Ordered, InOrder, PlaceFor;
    var s, x := w.s, w.sent[i].item;
    if !full && Wanted(TakenFor(x, s.base), s.base, s.u, s.queue) {
      WantedIsItself(x, s);
      assert w.sent[i] == Unreliable(x);
      CanBeInserted(w, x);
      InsertHandsOver(s.base, s.u, s.queue, s.packets, x, PlaceFor(s.queue, x));
      InsertMovesOn(s.base, s.u, s.queue, s.packets, x, PlaceFor(s.queue, x));
      assert s.packets + [] == s.packets;
    }
    if s.base <= x.number && x.number / 0x1000 < s.base / 0x1000 + 7 {
      WindowsApart(s.base, x.number);
      ResolveRecognises(s.base, x.number);
    }
  }

  /** Only a packet that is handed over moves the unreliable number on. */
  lemma {:induction false} InsertMovesOn(base: nat, u: nat, queue: seq<Item>, packets: seq<Packet>, x: Item, k: nat)
    requires Insertable(base, u, queue, packets, x, k) && !x.unsequenced
    ensures var after := queue[..k] + [x] + queue[k..];
            LastUnreliable(after[..Stop(after, base)], base, u) == if x.number == base && x.remaining == 0 then x.unreliable else u
  {
    hide ReadyOnes, LastUnreliable, Ordered, InOrder, Stop;
    var after := queue[..k] + [x] + queue[k..];
    var stop := Stop(after, base);
    assert forall j :: 0 <= j < |after| && j != k ==> after[j] == queue[if j < k then j else j - 1];
    assert forall j :: 0 <= j < |queue| ==> queue[j] in queue;
    assert after[k] == x && after[..0] == [];
    NothingReady(base, u);
    if Ready(x, base) {
      assert forall j :: 0 <= j < k ==> !Future(after[j], base);
      assert k < stop;
      NoneReady(after, base, u, 0, k);
      ReadyMore(after, base, u, k);
      NoneReady(after, base, u, k + 1, stop);
    } else {
      NoneReady(after, base, u, 0, stop);
    }
  }

  /** An unsequenced packet is handed over at once, if there is room. */
  lemma {:induction false} LooseArrives(w: World, i: nat, full: bool)
    requires Invariant(w) && Enabled(w, Arrive(i, full)) && w.sent[i].item.unsequenced
    ensures Step(w, Arrive(i, full)).s.packets == w.s.packets + if full then [] else [w.sent[i]]
  {
    hide WasSent, ReadyOnes, LastUnreliable, Stop, Left, Ordered, InOrder, PlaceFor;
    var s, x := w.s, w.sent[i].item;
    assert w.sent[i] == Unreliable(x) && s.packets + [] == s.packets;
    if !full {
      CanBeInserted(w, x);
      InsertHandsOver(s.base, s.u, s.queue, s.packets, x, PlaceFor(s.queue, x));
    }
  }

  /** The last fragment that a packet under the receiver's number waits for lets it be handed over; no other does. */
  lemma {:induction false} FragmentExactly(w: World, k: nat)
    requires Invariant(w) && Enabled(w, Fragment(k))
    ensures var s, t, x := w.s, Step(w, Fragment(k)).s, w.s.queue[k];
            t.packets == s.packets + if x.number == s.base && x.remaining == 1 then [Unreliable(x.(remaining := 0))] else []
  {
    hide WasSent, ReadyOnes, LastUnreliable, Stop, Left, Ordered, InOrder;
    var s, x := w.s, w.s.queue[k];
    assert x in s.queue && s.packets + [] == s.packets;
    if x.remaining == 1 {
      UpdateHandsOver(s.base, s.u, s.queue, s.packets, k, x.(remaining := 0));
    }
  }

  /** When reliable packets are handed over, the queued ones under the last number that are complete follow, in their order
      and nothing else with them; those for later numbers stay. */
  lemma {:induction false} HandsOverExactly(w: World, numbers: seq<nat>, next: nat)
    requires Invariant(w) && Enabled(w, HandOver(numbers, next))
    ensures var s, t := w.s, Step(w, HandOver(numbers, next)).s;
            && t.base == next && s.packets + AsReliable(numbers) <= t.packets
            && (forall p :: p in t.packets[|s.packets| + |numbers|..] <==>
                  p.Unreliable? && p.item in s.queue && p.item.number == next && p.item.remaining == 0)
            && forall x :: x in s.queue && x.number > next ==> x in t.queue
  {
    hide WasSent, ReadyOnes, LastUnreliable, Stop, Left, InOrder, AsReliable, Ordered, Recent;
    var s := w.s;
    var ready := ReadyOnes(s.queue[..Stop(s.queue, next)], next);
    var t := Step(w, HandOver(numbers, next)).s;
    assert t.packets == s.packets + AsReliable(numbers) + ready && t.packets[|s.packets| + |numbers|..] == ready;
    NoneLoose(s);
    forall p ensures p in ready <==> p.Unreliable? && p.item in s.queue && p.item.number == next && p.item.remaining == 0 {
      ReadyIs(s.queue, next, Stop(s.queue, next), p);
    }
    forall x | x in s.queue && x.number > next ensures x in t.queue {
      FutureStays(s.queue, next, x);
    }
  }

  lemma {:induction false} NoneLoose(s: State)
    requires Sound(s.base, s.u, s.queue, s.packets)
    ensures Ordered(s.queue) && forall x :: x in s.queue ==> !x.unsequenced
  {
    hide Ordered;
    forall x | x in s.queue ensures !x.unsequenced { assert Waits(x, s.base, s.u); }
  }

  /** What waits for a later number is not touched. */
  lemma {:induction false} FutureStays(queue: seq<Item>, base: nat, x: Item)
    requires x in queue && !x.unsequenced && x.number > base
    ensures x in Left(queue, base, -1)
  {
    hide Stop, Spare;
    var i :| 0 <= i < |queue| && queue[i] == x;
    var stop := Stop(queue, base);
    var d := Spare(queue, stop, base);
    assert Future(queue[i], base) && i >= stop;
    assert queue[d..][i - d] == x;
  }

  /** What of the queue is handed over, if all of it waited. */
  lemma {:induction false} ReadyIs(queue: seq<Item>, base: nat, stop: nat, p: Packet)
    requires stop == Stop(queue, base) && Ordered(queue) && forall x :: x in queue ==> !x.unsequenced
    ensures p in ReadyOnes(queue[..stop], base) <==>
            p.Unreliable? && p.item in queue && p.item.number == base && p.item.remaining == 0
  {
    hide ReadyOnes, Stop;
    ReadyMember(queue[..stop], base, p);
    if p.Unreliable? && p.item in queue && p.item.number == base {
      var i :| 0 <= i < |queue| && queue[i] == p.item;
      assert i < stop;
      assert queue[..stop][i] == p.item;
    }
  }

  lemma {:induction false} ReadyMember(queue: seq<Item>, base: nat, p: Packet)
    ensures p in ReadyOnes(queue, base) <==> p.Unreliable? && p.item in queue && Ready(p.item, base)
  {
    if queue != [] {
      var n := |queue| - 1;
      ReadyMember(queue[..n], base, p);
      assert queue == queue[..n] + [queue[n]];
    }
  }
}
