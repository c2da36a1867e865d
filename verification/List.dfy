/** Circular doubly linked lists threaded through their elements, with a sentinel. */
module List {
  class Node {
    var next: Node
    var previous: Node

    /** `enet_list_clear` of a new sentinel. */
    constructor ()
      ensures Ring([this])
    {
      next, previous := this, this;
    }
  }

  ghost predicate Linked(a: Node, b: Node)
    reads a, b
  {
    a.next == b && b.previous == a
  }

  ghost predicate Distinct(r: seq<Node>) { forall i, j :: 0 <= i < j < |r| ==> r[i] != r[j] }

  ghost predicate Chain(r: seq<Node>)
    reads r
  {
    forall k :: 0 <= k < |r| - 1 ==> Linked(r[k], r[k + 1])
  }

  /** The sentinel followed by the elements, linked both ways round. */
  ghost predicate Ring(r: seq<Node>)
    reads r
  {
    r != [] && Distinct(r) && Chain(r) && Linked(r[|r| - 1], r[0])
  }

  lemma {:induction false} ChainJoins(a: seq<Node>, b: seq<Node>)
    requires a != [] && b != [] && Chain(a) && Chain(b) && Linked(a[|a| - 1], b[0])
    ensures Chain(a + b)
  {
    var s := a + b;
    forall k | 0 <= k < |s| - 1 ensures Linked(s[k], s[k + 1]) {
      if k >= |a| {
        assert s[k] == b[k - |a|] && s[k + 1] == b[k - |a| + 1];
      }
    }
  }

  /** `enet_list_insert`: before a position; before the sentinel means at the end. */
  method Insert(position: Node, data: Node, ghost r: seq<Node>, ghost i: nat)
    requires Ring(r) && i < |r| && r[i] == position && data !in r
    modifies r, data
    ensures i == 0 ==> Ring(r + [data])
    ensures i > 0 ==> Ring(r[..i] + [data] + r[i..])
  {
    ghost var before := if i == 0 then r[|r| - 1] else r[i - 1];
    assert Linked(before, position);
    data.previous := position.previous;
    data.next := position;
    data.previous.next := data;
    position.previous := data;
    if i == 0 {
      assert Chain(r);
      ChainJoins(r, [data]);
    } else {
      assert Chain(r[..i]) && Chain(r[i..]);
      ChainJoins(r[..i], [data]);
      ChainJoins(r[..i] + [data], r[i..]);
      DistinctSpliced(r, i, [data]);
    }
  }

  /** `enet_list_remove`: the element keeps its own links. */
  method Remove(position: Node, ghost r: seq<Node>, ghost i: nat)
    requires Ring(r) && 0 < i < |r| && r[i] == position
    modifies r
    ensures Ring(r[..i] + r[i + 1..])
    ensures position.next == old(position.next) && position.previous == old(position.previous)
  {
    ghost var after := if i + 1 < |r| then r[i + 1] else r[0];
    assert Linked(r[i - 1], position) && Linked(position, after);
    position.previous.next := position.next;
    position.next.previous := position.previous;
    assert Chain(r[..i]) && Chain(r[i + 1..]);
    if i + 1 < |r| {
      ChainJoins(r[..i], r[i + 1..]);
    } else {
      assert r[..i] + r[i + 1..] == r[..i];
    }
  }

  lemma {:induction false} DistinctSpliced(r: seq<Node>, i: nat, run: seq<Node>)
    requires Distinct(r) && Distinct(run) && i <= |r| && forall n :: n in run ==> n !in r
    ensures Distinct(r[..i] + run + r[i..])
  {
    var s := r[..i] + run + r[i..];
    forall j, k | 0 <= j < k < |s| ensures s[j] != s[k] {
      assert i <= j < i + |run| ==> s[j] in run;
      assert i <= k < i + |run| ==> s[k] in run;
      assert !(i <= j < i + |run|) ==> s[j] == r[if j < i then j else j - |run|];
      assert !(i <= k < i + |run|) ==> s[k] == r[if k < i then k else k - |run|];
    }
  }

  /** `enet_list_move`: a run of one list goes before a position of another. */
  method Move(position: Node, first: Node, last: Node, ghost from: seq<Node>, ghost i: nat, ghost j: nat,
              ghost into: seq<Node>, ghost p: nat)
    requires Ring(from) && Ring(into) && (forall n :: n in from ==> n !in into)
    requires 0 < i <= j < |from| && from[i] == first && from[j] == last && p < |into| && into[p] == position
    modifies from, into
    ensures Ring(from[..i] + from[j + 1..])
    ensures p == 0 ==> Ring(into + from[i..j + 1])
    ensures p > 0 ==> Ring(into[..p] + from[i..j + 1] + into[p..])
  {
    hide Chain, Distinct, Linked;
    ghost var run, rest := from[i..j + 1], from[..i] + from[j + 1..];
    RunApart(from, i, j);
    Detach(first, last, from, i, j);
    RingStays(into);
    label Between:
    Attach(position, first, last, run, into, p);
    assert forall n :: n in rest ==> n in from && n !in run;
    RingStays@Between(rest);
  }

  /** A ring none of whose nodes has changed is a ring still. */
  twostate lemma {:induction false} RingStays(r: seq<Node>)
    requires old(Ring(r)) && forall n :: n in r ==> n.next == old(n.next) && n.previous == old(n.previous)
    ensures Ring(r)
  {
    assert forall k :: 0 <= k < |r| ==> r[k] in r;
  }

  lemma {:induction false} RunApart(from: seq<Node>, i: nat, j: nat)
    requires Distinct(from) && 0 < i <= j < |from|
    ensures Distinct(from[i..j + 1])
    ensures var run, rest := from[i..j + 1], from[..i] + from[j + 1..]; forall n :: n in run ==> n !in rest
  {
  }

  /** The first two assignments of `enet_list_move` take the run out. */
  method Detach(first: Node, last: Node, ghost from: seq<Node>, ghost i: nat, ghost j: nat)
    requires Ring(from) && 0 < i <= j < |from| && from[i] == first && from[j] == last
    modifies from
    ensures Ring(from[..i] + from[j + 1..]) && Chain(from[i..j + 1]) && Distinct(from)
  {
    ghost var after := if j + 1 < |from| then from[j + 1] else from[0];
    assert Linked(from[i - 1], first) && Linked(last, after);
    first.previous.next := last.next;
    last.next.previous := first.previous;
    Bypassed(from, i, j);
  }

  /** The other four put it in. */
  method Attach(position: Node, first: Node, last: Node, ghost run: seq<Node>, ghost into: seq<Node>, ghost p: nat)
    requires Ring(into) && Chain(run) && Distinct(run) && (forall n :: n in run ==> n !in into)
    requires run != [] && run[0] == first && run[|run| - 1] == last && p < |into| && into[p] == position
    modifies run, into
    ensures p == 0 ==> Ring(into + run)
    ensures p > 0 ==> Ring(into[..p] + run + into[p..])
  {
    ghost var before := if p == 0 then into[|into| - 1] else into[p - 1];
    assert Linked(before, position) && before in into && position in into && first in run && last in run;
    first.previous := position.previous;
    last.next := position;
    first.previous.next := first;
    position.previous := last;
    assert Chain(run) && Linked(before, first) && Linked(last, position);
    if p == 0 {
      assert Chain(into);
      ChainJoins(into, run);
      DistinctSpliced(into, |into|, run);
      assert into[..|into|] + run + into[|into|..] == into + run;
    } else {
      assert Chain(into[..p]) && Chain(into[p..]);
      ChainJoins(into[..p], run);
      ChainJoins(into[..p] + run, into[p..]);
      DistinctSpliced(into, p, run);
    }
  }

  lemma {:induction false} Bypassed(r: seq<Node>, i: nat, j: nat)
    requires 0 < i <= j < |r| && Distinct(r) && Chain(r[..i]) && Chain(r[j + 1..])
    requires Linked(r[i - 1], if j + 1 < |r| then r[j + 1] else r[0])
    requires j + 1 < |r| ==> Linked(r[|r| - 1], r[0])
    ensures Ring(r[..i] + r[j + 1..])
  {
    var s := r[..i] + r[j + 1..];
    if j + 1 < |r| {
      ChainJoins(r[..i], r[j + 1..]);
      assert forall k :: 0 <= k < |s| ==> s[k] == r[if k < i then k else k + (j + 1 - i)];
    } else {
      assert s == r[..i];
    }
  }

  /** `enet_list_size`. */
  method Size(sentinel: Node, ghost r: seq<Node>) returns (size: nat)
    requires Ring(r) && r[0] == sentinel
    ensures size == |r| - 1
  {
    size := 0;
    var position := sentinel.next;
    assert |r| > 1 ==> Linked(r[0], r[1]);
    while position != sentinel
      invariant size <= |r| - 1 && position == if size + 1 < |r| then r[size + 1] else r[0]
      decreases |r| - size
    {
      size := size + 1;
      assert size + 1 < |r| ==> Linked(r[size], r[size + 1]);
      position := position.next;
    }
  }
}
