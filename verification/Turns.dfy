/** In what order the walk over the two outgoing lists takes their commands. */
module Turns {
  import opened SendQueues

  /** One step of the walk: the head of a list is packed, or a throttled run leaves the head of outgoingCommands. */
  datatype Turn = Packed(c: Outgoing, fromReliable: bool) | Dropped(run: seq<Outgoing>)

  /** The steps of a walk; from step `held` on the reliable list was held back, if it `ended`. */
  datatype Walk = Walk(log: seq<Turn>, held: nat, ended: bool)

  function Gone(x: Turn): seq<Outgoing> { if x.Packed? then [x.c] else x.run }

  predicate OfReliable(x: Turn) { x.Packed? && x.fromReliable }

  /** What has left one of the two lists, what was packed, and what was dropped. */
  function TakenFrom(log: seq<Turn>, fromReliable: bool): seq<Outgoing> {
    if log == [] then []
    else
      var x := log[|log| - 1];
      TakenFrom(log[..|log| - 1], fromReliable) + if OfReliable(x) == fromReliable then Gone(x) else []
  }

  function PackedIn(log: seq<Turn>): seq<Outgoing> {
    if log == [] then []
    else var x := log[|log| - 1]; PackedIn(log[..|log| - 1]) + if x.Packed? then [x.c] else []
  }

  function DroppedIn(log: seq<Turn>): seq<Outgoing> {
    if log == [] then []
    else var x := log[|log| - 1]; DroppedIn(log[..|log| - 1]) + if x.Dropped? then x.run else []
  }

  /** One queue time is before another, on 32 bits. */
  predicate Sooner(x: Outgoing, y: Outgoing) { (x.queueTime - y.queueTime) % 0x1_0000_0000 >= 86400000 }

  /** How many commands of a list had gone before step p. */
  function Before(log: seq<Turn>, p: nat, fromReliable: bool): nat
    requires p <= |log|
  {
    |TakenFrom(log[..p], fromReliable)|
  }

  /** Of the two heads the one queued first is due; a tie goes to outgoingCommands. Once the reliable list is held back
      only the other one is looked at. */
  predicate Due(outgoing: seq<Outgoing>, reliable: seq<Outgoing>, a: nat, b: nat, fromReliable: bool, held: bool) {
    if fromReliable then !held && b < |reliable| && (a < |outgoing| ==> Sooner(reliable[b], outgoing[a]))
    else a < |outgoing| && (!held && b < |reliable| ==> !Sooner(reliable[b], outgoing[a]))
  }

  /** The heads of what is left. */
  lemma {:induction false} DueLater(outgoing: seq<Outgoing>, reliable: seq<Outgoing>, a: nat, b: nat, fromReliable: bool, held: bool)
    requires a <= |outgoing| && b <= |reliable|
    ensures Due(outgoing[a..], reliable[b..], 0, 0, fromReliable, held) <==> Due(outgoing, reliable, a, b, fromReliable, held)
  {
    hide Sooner;
  }

  /** Each step took what was due. The reliable list was held back from step `held` on. */
  ghost predicate InTurn(outgoing: seq<Outgoing>, reliable: seq<Outgoing>, log: seq<Turn>, held: nat) {
    forall p :: 0 <= p < |log| ==>
      Due(outgoing, reliable, Before(log, p, false), Before(log, p, true), OfReliable(log[p]), p >= held)
  }

  /** The log of a walk that has taken a and b commands of the two lists, and packed e and dropped d. */
  ghost predicate Logs(log: seq<Turn>, outgoing: seq<Outgoing>, reliable: seq<Outgoing>, a: nat, b: nat, e: seq<Outgoing>,
                       d: seq<Outgoing>) {
    && a <= |outgoing| && TakenFrom(log, false) == outgoing[..a]
    && b <= |reliable| && TakenFrom(log, true) == reliable[..b]
    && PackedIn(log) == e && DroppedIn(log) == d && forall x :: x in log ==> Gone(x) != []
  }

  /** A walk from its start. `ended` says that the head of the reliable list was reached and held back. */
  ghost predicate Walks(w: Walk, outgoing: seq<Outgoing>, reliable: seq<Outgoing>, a: nat, b: nat, e: seq<Outgoing>,
                        d: seq<Outgoing>) {
    && Logs(w.log, outgoing, reliable, a, b, e, d) && InTurn(outgoing, reliable, w.log, w.held) && w.held <= |w.log|
    && if w.ended then b < |reliable| && Due(outgoing, reliable, Before(w.log, w.held, false), b, true, false)
       else w.held == |w.log|
  }

  lemma {:induction false} WalkStarts(outgoing: seq<Outgoing>, reliable: seq<Outgoing>)
    ensures Walks(Walk([], 0, false), outgoing, reliable, 0, 0, [], [])
  {
    assert outgoing[..0] == [] && reliable[..0] == [];
  }

  /** What a step does to the lists and to what was packed and dropped. */
  ghost predicate Extends(x: Turn, outgoing: seq<Outgoing>, reliable: seq<Outgoing>, a: nat, b: nat, e: seq<Outgoing>,
                           d: seq<Outgoing>, a': nat, b': nat, e': seq<Outgoing>, d': seq<Outgoing>) {
    && Gone(x) != []
    && (if OfReliable(x) then a' == a && b' == b + 1 && b < |reliable| && x.c == reliable[b]
        else b' == b && a' == a + |Gone(x)| && a' <= |outgoing| && Gone(x) == outgoing[a..a'])
    && e' == e + (if x.Packed? then [x.c] else []) && d' == d + if x.Dropped? then x.run else []
  }

  lemma {:induction false} WalkSteps(w: Walk, outgoing: seq<Outgoing>, reliable: seq<Outgoing>,
                                     a: nat, b: nat, e: seq<Outgoing>, d: seq<Outgoing>, x: Turn, a': nat, b': nat,
                                     e': seq<Outgoing>, d': seq<Outgoing>)
    requires Walks(w, outgoing, reliable, a, b, e, d)
    requires Extends(x, outgoing, reliable, a, b, e, d, a', b', e', d')
    requires Due(outgoing, reliable, a, b, OfReliable(x), w.ended)
    ensures Walks(Walk(w.log + [x], if w.ended then w.held else w.held + 1, w.ended), outgoing, reliable, a', b', e', d')
  {
    hide Due, TakenFrom, PackedIn, DroppedIn;
    var log, held, ended, more := w.log, w.held, w.ended, w.log + [x];
    LogsOn(log, outgoing, reliable, a, b, e, d, x, a', b', e', d');
    forall p | 0 <= p < |more|
      ensures Due(outgoing, reliable, Before(more, p, false), Before(more, p, true), OfReliable(more[p]),
                  p >= if ended then held else held + 1)
    {
      assert more[..p] == log[..p];
      assert log[..|log|] == log;
    }
    assert more[..held] == log[..held];
    EndedTakes(x, ended, outgoing, reliable, a, b);
  }

  lemma {:induction false} EndedTakes(x: Turn, ended: bool, outgoing: seq<Outgoing>, reliable: seq<Outgoing>, a: nat, b: nat)
    requires Due(outgoing, reliable, a, b, OfReliable(x), ended)
    ensures ended ==> !OfReliable(x)
  {
  }

  lemma {:induction false} LogsOn(log: seq<Turn>, outgoing: seq<Outgoing>, reliable: seq<Outgoing>, a: nat, b: nat,
                                  e: seq<Outgoing>, d: seq<Outgoing>, x: Turn, a': nat, b': nat, e': seq<Outgoing>, d': seq<Outgoing>)
    requires Logs(log, outgoing, reliable, a, b, e, d)
    requires Extends(x, outgoing, reliable, a, b, e, d, a', b', e', d')
    ensures Logs(log + [x], outgoing, reliable, a', b', e', d')
  {
    assert (log + [x])[..|log|] == log;
    assert outgoing[..a'] == outgoing[..a] + outgoing[a..a'];
    assert reliable[..b'] == reliable[..b] + reliable[b..b'];
  }

  /** The head of the reliable list is reached and held back. */
  lemma {:induction false} WalkEnds(w: Walk, outgoing: seq<Outgoing>, reliable: seq<Outgoing>, a: nat, b: nat,
                                    e: seq<Outgoing>, d: seq<Outgoing>)
    requires Walks(w, outgoing, reliable, a, b, e, d) && !w.ended && Due(outgoing, reliable, a, b, true, false)
    ensures Walks(w.(ended := true), outgoing, reliable, a, b, e, d)
  {
    assert w.log[..w.held] == w.log;
  }

  // Lists in queue order.

  /** How long after `epoch` a command was queued. */
  function Rank(epoch: nat, c: Outgoing): nat { (c.queueTime - epoch) % 0x1_0000_0000 }

  /** Queued within a day of the epoch, and in this order. */
  ghost predicate Chronological(s: seq<Outgoing>, epoch: nat) {
    && (forall k :: 0 <= k < |s| ==> Rank(epoch, s[k]) < 86400000)
    && forall j, k :: 0 <= j < k < |s| ==> Rank(epoch, s[j]) <= Rank(epoch, s[k])
  }

  lemma {:induction false} SoonerExactly(epoch: nat, x: Outgoing, y: Outgoing)
    requires Rank(epoch, x) < 86400000 && Rank(epoch, y) < 86400000
    ensures Sooner(x, y) <==> Rank(epoch, x) < Rank(epoch, y)
  {
    var s: int, t: int := Rank(epoch, x), Rank(epoch, y);
    Congruent(x.queueTime - epoch, y.queueTime - epoch);
    assert (x.queueTime - epoch) - (y.queueTime - epoch) == x.queueTime - y.queueTime;
    assert (s - t) % 0x1_0000_0000 == if s >= t then s - t else s - t + 0x1_0000_0000;
  }

  lemma {:induction false} Congruent(x: int, y: int)
    ensures (x - y) % 0x1_0000_0000 == (x % 0x1_0000_0000 - y % 0x1_0000_0000) % 0x1_0000_0000
  {
  }

  /** The command of a step that decides when it is due. */
  function Front(x: Turn): Outgoing
    requires Gone(x) != []
  {
    Gone(x)[0]
  }

  /** The walk merges the lists. No command of outgoingCommands goes before a reliable one queued earlier, unless the
      reliable list is held back by then; no reliable one goes before one of outgoingCommands queued no later. */
  lemma {:induction false} TakenInOrder(w: Walk, outgoing: seq<Outgoing>, reliable: seq<Outgoing>,
                                        a: nat, b: nat, e: seq<Outgoing>, d: seq<Outgoing>, epoch: nat, p: nat)
    requires Walks(w, outgoing, reliable, a, b, e, d) && p < |w.log|
    requires Chronological(outgoing, epoch) && Chronological(reliable, epoch)
    ensures if OfReliable(w.log[p]) then
              forall k :: Before(w.log, p, false) <= k < |outgoing| ==> Rank(epoch, w.log[p].c) < Rank(epoch, outgoing[k])
            else
              p >= w.held || forall k :: Before(w.log, p, true) <= k < |reliable| ==>
                             Rank(epoch, Front(w.log[p])) <= Rank(epoch, reliable[k])
  {
    hide Due, InTurn, TakenFrom, PackedIn, DroppedIn, Rank, Chronological, Sooner;
    FrontIs(w, outgoing, reliable, a, b, e, d, p);
    DueInOrder(outgoing, reliable, Before(w.log, p, false), Before(w.log, p, true), OfReliable(w.log[p]), p >= w.held, epoch);
  }

  /** A step takes the command at the head of its list at that time. */
  lemma {:induction false} FrontIs(w: Walk, outgoing: seq<Outgoing>, reliable: seq<Outgoing>,
                                   a: nat, b: nat, e: seq<Outgoing>, d: seq<Outgoing>, p: nat)
    requires Walks(w, outgoing, reliable, a, b, e, d) && p < |w.log|
    ensures Gone(w.log[p]) != []
    ensures Due(outgoing, reliable, Before(w.log, p, false), Before(w.log, p, true), OfReliable(w.log[p]), p >= w.held)
    ensures if OfReliable(w.log[p]) then
              Before(w.log, p, true) < |reliable| && Front(w.log[p]) == reliable[Before(w.log, p, true)]
            else Before(w.log, p, false) < |outgoing| && Front(w.log[p]) == outgoing[Before(w.log, p, false)]
  {
    hide Due, TakenFrom, PackedIn, DroppedIn;
    var f := OfReliable(w.log[p]);
    var n := Before(w.log, p, f);
    TakenNext(w.log, p);
    TakenPrefix(w.log, p + 1, f);
    assert TakenFrom(w.log[..p + 1], f)[n] == Front(w.log[p]);
  }

  lemma {:induction false} TakenNext(log: seq<Turn>, p: nat)
    requires p < |log|
    ensures forall f :: TakenFrom(log[..p + 1], f) ==
                        TakenFrom(log[..p], f) + if OfReliable(log[p]) == f then Gone(log[p]) else []
  {
    assert log[..p + 1][..p] == log[..p];
  }

  lemma {:induction false} TakenPrefix(log: seq<Turn>, p: nat, fromReliable: bool)
    requires p <= |log|
    ensures TakenFrom(log[..p], fromReliable) <= TakenFrom(log, fromReliable)
  {
    if p == |log| {
      assert log[..p] == log;
    } else {
      TakenPrefix(log[..|log| - 1], p, fromReliable);
      assert log[..|log| - 1][..p] == log[..p];
    }
  }

  lemma {:induction false} DueInOrder(outgoing: seq<Outgoing>, reliable: seq<Outgoing>, a: nat, b: nat, fromReliable: bool,
                                      held: bool, epoch: nat)
    requires Due(outgoing, reliable, a, b, fromReliable, held)
    requires Chronological(outgoing, epoch) && Chronological(reliable, epoch)
    ensures if fromReliable then
              b < |reliable| && forall k :: a <= k < |outgoing| ==> Rank(epoch, reliable[b]) < Rank(epoch, outgoing[k])
            else
              && a < |outgoing|
              && (held || forall k :: b <= k < |reliable| ==> Rank(epoch, outgoing[a]) <= Rank(epoch, reliable[k]))
  {
    hide Rank, Sooner;
    if fromReliable {
      if a < |outgoing| { SoonerExactly(epoch, reliable[b], outgoing[a]); }
    } else if !held && b < |reliable| {
      SoonerExactly(epoch, reliable[b], outgoing[a]);
    }
  }

  /** Until the reliable list is held back the walk handles the commands of both lists in the order they were queued. */
  lemma {:induction false} HandledInOrder(w: Walk, outgoing: seq<Outgoing>, reliable: seq<Outgoing>,
                                          a: nat, b: nat, e: seq<Outgoing>, d: seq<Outgoing>, epoch: nat, p: nat, q: nat)
    requires Walks(w, outgoing, reliable, a, b, e, d) && p < q < w.held
    requires Chronological(outgoing, epoch) && Chronological(reliable, epoch)
    ensures Gone(w.log[p]) != [] && Gone(w.log[q]) != [] && Rank(epoch, Front(w.log[p])) <= Rank(epoch, Front(w.log[q]))
  {
    hide Due, InTurn, TakenFrom, PackedIn, DroppedIn, Rank, Sooner;
    FrontIs(w, outgoing, reliable, a, b, e, d, p);
    FrontIs(w, outgoing, reliable, a, b, e, d, q);
    TakenInOrder(w, outgoing, reliable, a, b, e, d, epoch, p);
    BeforeGrows(w.log, p, q, false);
    BeforeGrows(w.log, p, q, true);
  }

  lemma {:induction false} BeforeGrows(log: seq<Turn>, p: nat, q: nat, fromReliable: bool)
    requires p <= q <= |log|
    ensures Before(log, p, fromReliable) <= Before(log, q, fromReliable)
  {
    assert log[..q][..p] == log[..p];
    TakenPrefix(log[..q], p, fromReliable);
  }

  /** What is packed before the reliable list is held back is in the order it was queued. */
  lemma {:induction false} PackedInOrder(w: Walk, outgoing: seq<Outgoing>, reliable: seq<Outgoing>, a: nat, b: nat,
                                         e: seq<Outgoing>, d: seq<Outgoing>, epoch: nat)
    requires Walks(w, outgoing, reliable, a, b, e, d) && !w.ended
    requires Chronological(outgoing, epoch) && Chronological(reliable, epoch)
    ensures forall j, k :: 0 <= j < k < |e| ==> Rank(epoch, e[j]) <= Rank(epoch, e[k])
  {
    hide Due, InTurn, TakenFrom, DroppedIn, Rank, Sooner, PackedIn;
    forall j, k | 0 <= j < k < |e| ensures Rank(epoch, e[j]) <= Rank(epoch, e[k]) {
      var p, q := PackedAt(w.log, j, k);
      HandledInOrder(w, outgoing, reliable, a, b, e, d, epoch, p, q);
    }
  }

  /** Where two commands were packed. */
  lemma {:induction false} PackedAt(log: seq<Turn>, j: nat, k: nat) returns (p: nat, q: nat)
    requires j < k < |PackedIn(log)|
    ensures p < q < |log| && log[p].Packed? && log[q].Packed? && log[p].c == PackedIn(log)[j] && log[q].c == PackedIn(log)[k]
  {
    var n := |log| - 1;
    if k < |PackedIn(log[..n])| {
      p, q := PackedAt(log[..n], j, k);
    } else {
      q := n;
      p := OnePackedAt(log[..n], j);
    }
  }

  lemma {:induction false} OnePackedAt(log: seq<Turn>, j: nat) returns (p: nat)
    requires j < |PackedIn(log)|
    ensures p < |log| && log[p].Packed? && log[p].c == PackedIn(log)[j]
  {
    var n := |log| - 1;
    if j < |PackedIn(log[..n])| {
      p := OnePackedAt(log[..n], j);
    } else {
      p := n;
    }
  }
}
