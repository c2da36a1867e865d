/** Unsequenced packets: none is queued twice. */
module Unsequenced {
  import opened Windows

  const WINDOW_SIZE := 1024
  const FREE_GROUPS := 32 * WINDOW_SIZE

  /** What the receiver remembers, on unbounded group numbers: the first group of its window, and which groups of the
      window have been queued. */
  datatype State = State(base: nat, seen: set<nat>)

  /** A group as the receiver takes its 16 bits: the first number from the base on. */
  predicate Dropped(s: State, w: nat) { Resolve(s.base, w) >= s.base + FREE_GROUPS }

  /** The first group of the window that holds n. */
  function Start(n: nat): (w: nat)
    ensures w <= n
  {
    n - n % WINDOW_SIZE
  }

  /** The state once 16 bits w have arrived; `full` says that the packet cannot be queued. */
  function Next(s: State, w: nat, full: bool): State {
    var n := Resolve(s.base, w);
    if Dropped(s, w) then s
    else
      var moved := if Start(n) != s.base then State(Start(n), {}) else s;
      if full || n in moved.seen then moved else moved.(seen := moved.seen + {n})
  }

  predicate Queues(s: State, w: nat, full: bool) {
    !Dropped(s, w) && !full && (s.base <= Resolve(s.base, w) < s.base + WINDOW_SIZE ==> Resolve(s.base, w) !in s.seen)
  }

  /** An arrival: the group the sender meant, and whether it could be queued. */
  datatype Arrival = Arrival(group: nat, full: bool)

  function After(arrivals: seq<Arrival>): State {
    if arrivals == [] then State(0, {})
    else
      var last := arrivals[|arrivals| - 1];
      Next(After(arrivals[..|arrivals| - 1]), Wire(last.group), last.full)
  }

  /** Every arrival was at most 32768 groups behind the base at its time, and less than 2^16 ahead of it. */
  ghost predicate Timely(arrivals: seq<Arrival>) {
    forall k :: 0 <= k < |arrivals| ==> Near(After(arrivals[..k]).base, arrivals[k].group)
  }

  predicate Near(base: nat, n: nat) { base - FREE_GROUPS <= n < base + SPAN }

  ghost predicate Queued(arrivals: seq<Arrival>, k: nat)
    requires k < |arrivals|
  {
    Queues(After(arrivals[..k]), Wire(arrivals[k].group), arrivals[k].full)
  }

  ghost predicate Aligned(s: State) {
    s.base % WINDOW_SIZE == 0 && forall n :: n in s.seen ==> s.base <= n < s.base + WINDOW_SIZE
  }

  /** A group in reach is recognised or dropped, and one behind the base is dropped. */
  lemma {:induction false} Recognises(s: State, n: nat)
    requires Near(s.base, n)
    ensures s.base <= n ==> Resolve(s.base, Wire(n)) == n && (Dropped(s, Wire(n)) <==> n >= s.base + FREE_GROUPS)
    ensures n < s.base ==> Dropped(s, Wire(n))
  {
    ResolveRecognises(s.base, n);
  }

  lemma {:induction false} StaysAligned(arrivals: seq<Arrival>)
    ensures Aligned(After(arrivals))
  {
    if arrivals != [] {
      var last := arrivals[|arrivals| - 1];
      var s := After(arrivals[..|arrivals| - 1]);
      StaysAligned(arrivals[..|arrivals| - 1]);
      AlignedNext(s, Wire(last.group), last.full);
    }
  }

  lemma {:induction false} AlignedNext(s: State, w: nat, full: bool)
    requires Aligned(s)
    ensures Aligned(Next(s, w, full)) && s.base <= Next(s, w, full).base
  {
    var n := Resolve(s.base, w);
    if !Dropped(s, w) {
      WindowStart(n);
      WindowStart(s.base);
      if n >= s.base { StartsGrow(s.base, n); }
    }
  }

  lemma {:induction false} WindowStart(n: nat)
    ensures (n - n % WINDOW_SIZE) % WINDOW_SIZE == 0 && n - n % WINDOW_SIZE <= n < n - n % WINDOW_SIZE + WINDOW_SIZE
  {
  }

  lemma {:induction false} StartsGrow(a: nat, b: nat)
    requires a <= b && a % WINDOW_SIZE == 0
    ensures a <= b - b % WINDOW_SIZE
  {
  }

  /** Once queued, a group is marked or behind the base for good. */
  lemma {:induction false} QueuedIsRemembered(arrivals: seq<Arrival>, k: nat)
    requires Timely(arrivals) && k < |arrivals| && Queued(arrivals, k)
    ensures Remembers(After(arrivals), arrivals[k].group)
  {
    hide Next, Remembers, Near, Queues;
    var before := arrivals[..|arrivals| - 1];
    var last := arrivals[|arrivals| - 1];
    StaysAligned(before);
    assert Near(After(before).base, last.group);
    if k < |before| {
      TimelyPrefix(arrivals, |before|);
      assert before[..k] == arrivals[..k];
      QueuedIsRemembered(before, k);
      RememberedNext(After(before), last.group, last.full, arrivals[k].group);
    } else {
      RememberedFirst(After(before), last.group, last.full);
    }
  }

  predicate Remembers(s: State, n: nat) { n < s.base || n in s.seen }

  lemma {:induction false} TimelyPrefix(arrivals: seq<Arrival>, n: nat)
    requires Timely(arrivals) && n <= |arrivals|
    ensures Timely(arrivals[..n])
  {
    forall k | 0 <= k < n ensures Near(After(arrivals[..n][..k]).base, arrivals[..n][k].group) {
      assert arrivals[..n][..k] == arrivals[..k];
    }
  }

  lemma {:induction false} RememberedNext(s: State, n: nat, full: bool, m: nat)
    requires Aligned(s) && Near(s.base, n) && Remembers(s, m)
    ensures Remembers(Next(s, Wire(n), full), m)
  {
    Recognises(s, n);
    if s.base <= n {
      WindowStart(n);
      StartsGrow(s.base, n);
      NextWindowStart(s.base, n);
    }
  }

  /** The next window starts a whole window later. */
  lemma {:induction false} NextWindowStart(a: nat, b: nat)
    requires a <= b && a % WINDOW_SIZE == 0
    ensures b - b % WINDOW_SIZE == a || b - b % WINDOW_SIZE >= a + WINDOW_SIZE
  {
  }

  lemma {:induction false} RememberedFirst(s: State, n: nat, full: bool)
    requires Aligned(s) && Near(s.base, n) && Queues(s, Wire(n), full)
    ensures Remembers(Next(s, Wire(n), full), n)
  {
    Recognises(s, n);
    WindowStart(n);
    NextWindowStart(s.base, n);
  }

  /** No group is queued twice, whatever is repeated, reordered or delayed within reach of the window. */
  lemma {:induction false} QueuedAtMostOnce(arrivals: seq<Arrival>, j: nat, k: nat)
    requires Timely(arrivals) && j < k < |arrivals| && arrivals[j].group == arrivals[k].group
    ensures !(Queued(arrivals, j) && Queued(arrivals, k))
  {
    if Queued(arrivals, j) {
      var before := arrivals[..k];
      var s, n := After(before), arrivals[k].group;
      TimelyPrefix(arrivals, k);
      assert before[..j] == arrivals[..j];
      QueuedIsRemembered(before, j);
      StaysAligned(before);
      Recognises(s, n);
    }
  }

  /** The window moves to the one of 1024 groups that holds an arriving group, if it is ahead by less than 32768. */
  lemma {:induction false} BaseExactly(arrivals: seq<Arrival>)
    requires Timely(arrivals) && arrivals != []
    ensures var s, a := After(arrivals[..|arrivals| - 1]), arrivals[|arrivals| - 1];
            After(arrivals).base == if s.base <= a.group < s.base + 32768 then a.group / 1024 * 1024 else s.base
  {
    var n := |arrivals| - 1;
    var s, a := After(arrivals[..n]), arrivals[n];
    assert Near(s.base, a.group);
    StaysAligned(arrivals[..n]);
    Recognises(s, a.group);
  }

  /** What is marked has been queued. */
  lemma {:induction false} SeenWasQueued(arrivals: seq<Arrival>, n: nat) returns (j: nat)
    requires Timely(arrivals) && n in After(arrivals).seen
    ensures j < |arrivals| && Queued(arrivals, j) && arrivals[j].group == n
  {
    hide Near;
    var m := |arrivals| - 1;
    var s, a := After(arrivals[..m]), arrivals[m];
    assert Near(s.base, a.group);
    TimelyPrefix(arrivals, m);
    StaysAligned(arrivals[..m]);
    Recognises(s, a.group);
    if n in s.seen && !(n == a.group && Queued(arrivals, m)) {
      j := SeenWasQueued(arrivals[..m], n);
      assert arrivals[..m][..j] == arrivals[..j];
    } else {
      j := m;
    }
  }

  /** A group is queued exactly if there is room, it is ahead of the window's base by less than 32768, and it has not been
      queued before. */
  lemma {:induction false} QueuedExactly(arrivals: seq<Arrival>, k: nat)
    requires Timely(arrivals) && k < |arrivals|
    ensures var base, a := After(arrivals[..k]).base, arrivals[k];
            Queued(arrivals, k) <==>
            && !a.full && base <= a.group < base + 32768
            && forall j :: 0 <= j < k && arrivals[j].group == a.group ==> !Queued(arrivals, j)
  {
    hide Next;
    var s, a := After(arrivals[..k]), arrivals[k];
    assert Near(s.base, a.group);
    TimelyPrefix(arrivals, k);
    Recognises(s, a.group);
    if Queued(arrivals, k) {
      forall j | 0 <= j < k && arrivals[j].group == a.group ensures !Queued(arrivals, j) {
        QueuedAtMostOnce(arrivals, j, k);
      }
    } else if !a.full && s.base <= a.group < s.base + 32768 {
      var j := SeenWasQueued(arrivals[..k], a.group);
      assert arrivals[..k][..j] == arrivals[..j];
    }
  }

  /** Behind the base the reach is exact. */
  lemma {:induction false} DroppedExactly(s: State, n: nat)
    requires n < s.base < n + SPAN
    ensures Dropped(s, Wire(n)) <==> s.base - n <= FREE_GROUPS
  {
    ResolveRecognises(s.base, n);
  }

  /** A later copy of a queued group, less than 2^16 groups behind the base, is queued again just if it is more than
      32768 groups behind and the group it is taken for was not queued. */
  lemma {:induction false} CopyQueuedExactly(arrivals: seq<Arrival>, j: nat, k: nat)
    requires j < k < |arrivals| && Timely(arrivals[..k]) && arrivals[j].group == arrivals[k].group && !arrivals[k].full
    requires Queued(arrivals, j) && After(arrivals[..k]).base - SPAN < arrivals[k].group
    ensures var s, n := After(arrivals[..k]), arrivals[k].group;
            Queued(arrivals, k) <==> s.base - n > FREE_GROUPS && n + SPAN !in s.seen
  {
    var before := arrivals[..k];
    var s, n := After(before), arrivals[k].group;
    assert before[..j] == arrivals[..j];
    QueuedIsRemembered(before, j);
    StaysAligned(before);
    if n < s.base {
      DroppedExactly(s, n);
      ResolveRecognises(s.base, n);
    } else {
      Recognises(s, n);
    }
  }

  lemma {:induction false} OneMore(arrivals: seq<Arrival>, a: Arrival)
    ensures After(arrivals + [a]) == Next(After(arrivals), Wire(a.group), a.full)
  {
    assert (arrivals + [a])[..|arrivals|] == arrivals;
  }

  /** Where a group of a later window, of less than 2^16, moves the window. */
  lemma {:induction false} MovesTo(s: State, n: nat)
    requires s.base <= n < s.base + FREE_GROUPS && n < SPAN
    ensures Next(s, Wire(n), false).base == Start(n)
  {
    ResolveRecognises(s.base, n);
  }

  /** Such a run: the window moves twice while a copy of group 1023 is under way. */
  lemma {:induction false} QueuedTwice()
    ensures var run := [Arrival(1023, false), Arrival(20480, false), Arrival(33792, false), Arrival(1023, false)];
            Queued(run, 0) && Queued(run, 3)
  {
    hide After, Next;
    var a, b, c := Arrival(1023, false), Arrival(20480, false), Arrival(33792, false);
    var run := [a, b, c, a];
    NothingYet();
    OneMore([], a);
    OneMore([a], b);
    OneMore([a, b], c);
    assert [] + [a] == [a] && [a] + [b] == [a, b] && [a, b] + [c] == [a, b, c];
    MovesTo(State(0, {}), 1023);
    MovesTo(After([a]), 20480);
    MovesTo(After([a, b]), 33792);
    assert run[..0] == [] && run[..3] == [a, b, c] && After([a, b, c]).base == 33792;
    ResolveRecognises(33792, 1023);
  }

  lemma {:induction false} NothingYet()
    ensures After([]) == State(0, {})
  {
  }

  class Peer {
    var incomingUnsequencedGroup: nat
    var unsequencedWindow: array<bool>
    ghost var base: nat

    ghost function Current(): State
      reads this, unsequencedWindow
      requires unsequencedWindow.Length == WINDOW_SIZE
    {
      State(base, set n | base <= n < base + WINDOW_SIZE && Marked(n))
    }

    ghost predicate Marked(n: nat)
      reads this, unsequencedWindow
      requires unsequencedWindow.Length == WINDOW_SIZE && base <= n < base + WINDOW_SIZE
    {
      unsequencedWindow[n - base]
    }

    ghost predicate Valid()
      reads this, unsequencedWindow
    {
      unsequencedWindow.Length == WINDOW_SIZE && base % WINDOW_SIZE == 0 && incomingUnsequencedGroup == Wire(base)
    }

    constructor ()
      ensures Valid() && Current() == State(0, {})
    {
      incomingUnsequencedGroup, base := 0, 0;
      unsequencedWindow := new bool[WINDOW_SIZE](_ => false);
    }

    /** `enet_protocol_handle_send_unsequenced`, from the group number on. */
    method Handle(group: nat, full: bool) returns (queued: bool)
      requires Valid() && group < SPAN
      modifies this, unsequencedWindow
      ensures Valid() && unsequencedWindow == old(unsequencedWindow)
      ensures Current() == Next(old(Current()), group, full) && queued == Queues(old(Current()), group, full)
    {
      ghost var n := Resolve(base, group);
      GroupOnWire(base, group);
      hide Resolve, Wire, Start;
      var index := group % WINDOW_SIZE;
      var unsequencedGroup := group;
      if unsequencedGroup < incomingUnsequencedGroup {
        unsequencedGroup := unsequencedGroup + SPAN;
      }
      if unsequencedGroup >= incomingUnsequencedGroup + FREE_GROUPS {
        return false;
      }
      unsequencedGroup := unsequencedGroup % SPAN;
      if unsequencedGroup - index != incomingUnsequencedGroup {
        MoveTo(unsequencedGroup - index, Start(n));
      } else if unsequencedWindow[index] {
        assert Marked(n);
        return false;
      } else {
        assert !Marked(n);
      }
      if full {
        return false;
      }
      Mark(index);
      queued := true;
    }

    /** The window moves and forgets what it held. */
    method MoveTo(group: nat, ghost start: nat)
      requires Valid() && start % WINDOW_SIZE == 0 && group == Wire(start)
      modifies this, unsequencedWindow
      ensures Valid() && unsequencedWindow == old(unsequencedWindow) && Current() == State(start, {}) && base == start
      ensures forall i :: 0 <= i < WINDOW_SIZE ==> !unsequencedWindow[i]
    {
      incomingUnsequencedGroup := group;
      base := start;
      forall i | 0 <= i < WINDOW_SIZE {
        unsequencedWindow[i] := false;
      }
    }

    method Mark(index: nat)
      requires Valid() && index < WINDOW_SIZE
      modifies unsequencedWindow
      ensures Valid() && Current() == old(Current()).(seen := old(Current()).seen + {base + index})
    {
      ghost var before := Current();
      unsequencedWindow[index] := true;
      forall n: nat ensures n in Current().seen <==> n in before.seen || n == base + index {
        if base <= n < base + WINDOW_SIZE { assert old(Marked(n)) <==> n in before.seen; }
      }
    }
  }

  /** What the arithmetic on 16 bits comes to: the place in the window, the window, and whether it is the same. */
  lemma {:induction false} GroupOnWire(base: nat, group: nat)
    requires group < SPAN && base % WINDOW_SIZE == 0
    ensures var n := Resolve(base, group);
            && n >= base && Start(n) + group % WINDOW_SIZE == n && Start(n) % WINDOW_SIZE == 0
            && n - base == group + (if group < Wire(base) then SPAN else 0) - Wire(base)
            && Wire(Start(n)) == group - group % WINDOW_SIZE && (group + SPAN) % SPAN == group % SPAN == group
            && (n < base + FREE_GROUPS ==> (Start(n) == base <==> group - group % WINDOW_SIZE == Wire(base)))
  {
    var p := base / SPAN;
    var q := p + if group < Wire(base) then 1 else 0;
    var n := Resolve(base, group);
    assert base == p * SPAN + Wire(base) && n == q * SPAN + group;
    InWindow(q, group);
    WindowStart(n);
    Divides(q, group - group % WINDOW_SIZE);
    assert n - n % WINDOW_SIZE == q * SPAN + (group - group % WINDOW_SIZE);
  }

  lemma {:induction false} InWindow(q: nat, group: nat)
    ensures (q * SPAN + group) % WINDOW_SIZE == group % WINDOW_SIZE
  {
    assert q * SPAN == (q * 64) * WINDOW_SIZE;
    Remainder(q * 64, group);
  }

  lemma {:induction false} Remainder(q: nat, group: nat)
    ensures (q * WINDOW_SIZE + group) % WINDOW_SIZE == group % WINDOW_SIZE
  {
  }
}
