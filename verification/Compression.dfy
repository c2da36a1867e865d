/** `ENetRangeCoder` of src/compress.c: the symbol table updated in place, and the two entry points. */
module Compression {
  import opened Carryless
  import opened FrequencyModel
  import opened Ppm
  import opened SymbolTree
  import opened SymbolTable
  import opened CoderWords

  // ---- Steps of the rescaling loop ----

  lemma {:induction false} InTable(s: seq<Symbol>, i: nat, t: Tree)
    requires Represents(s, i, t)
    ensures i < |s| && t.Node?
  {
  }

  lemma {:induction false} HalvedAtIs(s: seq<Symbol>, s': seq<Symbol>, i: nat)
    requires i < |s| && |s'| == |s| && s' == s[i := s'[i]]
    requires s'[i] == s[i].(count := s[i].count - s[i].count / 2, under := s[i].count - s[i].count / 2)
    ensures s' == HalvedAt(s, i)
  {
  }

  lemma {:induction false} LeftUnfolds(s: seq<Symbol>, i: nat)
    requires i < |s| && (s[i].left != 0 ==> i + s[i].left < |s|)
    ensures HalvedAt(s, i)[i].left == s[i].left && HalvedAt(s, i)[i].right == s[i].right
    ensures RescaledLeft(s, i) == if s[i].left != 0 then RescaleFrom(HalvedAt(s, i), i + s[i].left, 0) else (HalvedAt(s, i), 0)
  {
  }

  lemma {:induction false} RescaledAtIs(s: seq<Symbol>, left: (seq<Symbol>, nat), s': seq<Symbol>, i: nat)
    requires i < |s| && left == RescaledLeft(s, i) && |s'| == |s| && s' == left.0[i := s'[i]]
    requires s'[i] == left.0[i].(under := left.0[i].under + left.1)
    ensures s' == RescaledAt(s, i)
  {
  }

  /** Changing the totals of a context does not touch its tree. */
  lemma {:induction false} HeldAside(s: seq<Symbol>, s': seq<Symbol>, i: nat, t: Tree, next: nat)
    requires HoldsTree(s, i, t, next) && |s'| == |s| && s' == s[i := s'[i]]
    requires s'[i] == s[i].(escapes := s'[i].escapes, total := s'[i].total)
    ensures HoldsTree(s', i, t, next)
  {
    hide Nodes, Ordered, Descending;
    if s[i].symbols != 0 {
      RepresentsFrame(s, s', i + s[i].symbols, t);
    }
  }

  lemma {:induction false} NodeBelow(s: seq<Symbol>, i: nat, t: Tree, next: nat)
    requires Represents(s, i, t) && Roomy(t, next)
    ensures i < next && i < |s| && t.Node?
  {
    assert t.at in Nodes(t);
  }

  /** One step of the encoder's search, and what the next one may rely on. */
  lemma {:induction false} EncodeWalkStep(s: seq<Symbol>, i: nat, t: Tree, lo: nat, hi: nat, v: Byte, update: nat, next: nat, under: int)
    requires Represents(s, i, t) && Roomy(t, next) && i < next < |s| && Ordered(t, lo, hi)
    ensures s[i].value == t.value && 0 < s[i].count && t.Node? && Ordered(t.left, lo, t.value) && Ordered(t.right, t.value + 1, hi)
    ensures Roomy(t.left, next) && Roomy(t.right, next)
    ensures var s1 := s[i := s[i].(under := s[i].under + update)];
            var w := EncodeWalk(s, i, v, update, next, under);
            && (s[i].left != 0 ==> i + s[i].left < next && Represents(s1, i + s[i].left, t.left))
            && (s[i].right != 0 ==> i + s[i].right < next && Represents(s, i + s[i].right, t.right))
            && if v < s[i].value then
                 if s[i].left != 0 then w == EncodeWalk(s1, i + s[i].left, v, update, next, under)
                 else w == Walk(s1[next := NewSymbol(v, update)][i := s1[i].(left := next - i)], next, under, 0)
               else if v > s[i].value then
                 if s[i].right != 0 then w == EncodeWalk(s, i + s[i].right, v, update, next, under + s[i].under)
                 else w == Walk(s[next := NewSymbol(v, update)][i := s[i].(right := next - i)], next, under + s[i].under, 0)
               else w == Walk(s[i := s[i].(under := s[i].under + update, count := s[i].count + update)], i, under + s[i].under - s[i].count, s[i].count)
  {
    hide Nodes, Descending;
    Apart(s, i, t, next);
    var s1 := s[i := s[i].(under := s[i].under + update)];
    if s[i].left != 0 {
      RepresentsFrame(s, s1, i + s[i].left, t.left);
    }
  }

  /** One step of the decoder's search, and what the next one may rely on. */
  lemma {:induction false} DecodeWalkStep(s: seq<Symbol>, i: nat, t: Tree, code: nat, minimum: nat, update: nat, next: nat, under: nat)
    requires Represents(s, i, t) && Roomy(t, next) && i < next < |s| && minimum <= 1
    ensures t.Node? && Roomy(t.left, next) && Roomy(t.right, next)
    ensures var n := s[i]; var s1 := s[i := n.(under := n.under + update)];
            var after: nat, before := under + n.under + (n.value + 1) * minimum, n.count + minimum;
            var d := DecodeWalk(s, i, code, minimum, update, next, under);
            && (n.left != 0 ==> i + n.left < next && Represents(s1, i + n.left, t.left))
            && (n.right != 0 ==> i + n.right < next && Represents(s, i + n.right, t.right))
            && if code >= after then
                 if n.right != 0 then d == DecodeWalk(s, i + n.right, code, minimum, update, next, under + n.under)
                 else if minimum == 0 then d == Miss
                 else
                   var v := (n.value + 1 + (code - after) / minimum) % 256;
                   d == Hit(v, Walk(s[next := NewSymbol(v, update)][i := n.(right := next - i)], next, code - (code - after) % minimum, 0))
               else if code < after - before then
                 if n.left != 0 then d == DecodeWalk(s1, i + n.left, code, minimum, update, next, under)
                 else if minimum == 0 then d == Miss
                 else
                   var v := (n.value - 1 - (after - before - code - 1) / minimum) % 256;
                   d == Hit(v, Walk(s1[next := NewSymbol(v, update)][i := s1[i].(left := next - i)], next, code - (after - before - code - 1) % minimum, 0))
               else d == Hit(n.value, Walk(s[i := n.(under := n.under + update, count := n.count + update)], i, after - before, n.count))
  {
    hide Nodes, Descending;
    Apart(s, i, t, next);
    var s1 := s[i := s[i].(under := s[i].under + update)];
    if s[i].left != 0 {
      RepresentsFrame(s, s1, i + s[i].left, t.left);
    }
  }

  lemma {:induction false} WaitingBelow(s: seq<Symbol>, next: nat, L: Layout, m: Model, open: Option<Path>)
    requires Table(s, next, L, m, open)
    ensures Waiting(L, open) < |s|
  {
    if open.Some? && open.value in L.index {
      IndexOf(L, next, open.value, open.value);
    }
  }

  // ---- What coding a byte means for the output and the table ----

  /** The slots that context p contributes to the code of v: the one of v, or that of an escape. */
  function SlotsAt(m: Model, p: Path, v: Byte): (r: seq<Slot>)
    requires ContextsOk(m)
    ensures SlotsOk(r)
  {
    var ctx := Ctx(m, p);
    assert ContextOk(ctx, p);
    if ctx.counts[v] + Minimum(p) > 0 then
      SlotOfOk(ctx, p, v);
      [SlotOf(ctx, p, v)]
    else EscapeSlots(ctx, p)
  }

  /** The bytes of the slots follow what was there before, if they fit; otherwise coding fails. */
  ghost predicate Coded(ok: bool, low: nat, range: nat, pos: nat, out: seq<Byte>,
                        c: Coder, pos0: nat, out0: seq<Byte>, limit: nat, slots: seq<Slot>)
    requires Ready(c) && SlotsOk(slots)
  {
    var (bytes, c') := EncodeAll(c, slots);
    && |out| == |out0| && pos0 <= limit <= |out|
    && (ok <==> pos0 + |bytes| <= limit)
    && (ok ==> Coder(low, range) == c' && pos == pos0 + |bytes| && out[..pos] == out0[..pos0] + bytes)
  }

  /** The table has learned v at p. */
  ghost predicate HasLearned(s: seq<Symbol>, next: nat, L: Layout, L0: Layout, m: Model, open: Option<Path>, p: Path, v: Byte,
                          symbol: nat, count: nat, nextSymbol: nat)
    requires ContextsOk(m)
  {
    && |Ctx(m, p).counts| == 256 && Table(s, next, L, LearnAt(m, p, v), OpenAfter(L0, p, v))
    && L.index.Keys == L0.index.Keys + {p + [v]} && (forall q :: q in L0.index ==> L.index[q] == L0.index[q])
    && L.index[p + [v]] == symbol && count == Ctx(m, p).counts[v] + Minimum(p)
    && (p + [v] in L0.index <==> Ctx(m, p).counts[v] > 0)
    && next == if Ctx(m, p).counts[v] == 0 then nextSymbol + 1 else nextSymbol
  }

  lemma {:induction false} EncodeOne(c: Coder, slot: Slot)
    requires Ready(c) && SlotOk(slot)
    ensures SlotsOk([slot]) && EncodeAll(c, [slot]) == Encode(c, slot)
  {
    var e := Encode(c, slot);
    assert [slot][1..] == [] && e.0 + [] == e.0;
  }

  lemma {:induction false} EncodeNone(c: Coder)
    requires Ready(c)
    ensures EncodeAll(c, []) == ([], c)
  {
  }

  /** The table represents m, and the context of path q is at `predicted`. */
  ghost predicate Reached(s: seq<Symbol>, next: nat, L: Layout, m: Model, q: Path, predicted: nat) {
    Table(s, next, L, m, None) && q in L.index && predicted == L.index[q]
  }

  lemma {:induction false} NothingCoded(c: Coder, pos: nat, out: seq<Byte>, limit: nat)
    requires Ready(c) && pos <= limit <= |out|
    ensures Coded(true, c.low, c.range, pos, out, c, pos, out, limit, [])
  {
    EncodeNone(c);
    assert out[..pos] + [] == out[..pos];
  }

  lemma {:induction false} CodedReady(low: nat, range: nat, pos: nat, out: seq<Byte>, c: Coder, pos0: nat, out0: seq<Byte>, limit: nat, slots: seq<Slot>)
    requires Ready(c) && SlotsOk(slots) && Coded(true, low, range, pos, out, c, pos0, out0, limit, slots)
    ensures Ready(Coder(low, range)) && pos <= limit <= |out|
  {
  }

  /** Coding some slots and then more is coding them all; if the additional ones do not fit, nor do all. */
  lemma {:induction false} MoreCoded(ok: bool, low: nat, range: nat, pos: nat, out: seq<Byte>, low1: nat, range1: nat, pos1: nat, out1: seq<Byte>,
                  c: Coder, pos0: nat, out0: seq<Byte>, limit: nat, done: seq<Slot>, more: seq<Slot>, all: seq<Slot>)
    requires Ready(c) && SlotsOk(done) && SlotsOk(more) && SlotsOk(all) && Ready(Coder(low1, range1))
    requires Coded(true, low1, range1, pos1, out1, c, pos0, out0, limit, done)
    requires Coded(ok, low, range, pos, out, Coder(low1, range1), pos1, out1, limit, more)
    requires done + more <= all
    ensures Coded(ok, low, range, pos, out, c, pos0, out0, limit, done + more)
    ensures !ok ==> Coded(ok, low, range, pos, out, c, pos0, out0, limit, all)
  {
    hide EncodeAll;
    EncodeAllSplits(c, done, more);
    var rest := all[|done + more|..];
    assert all == done + more + rest;
    EncodeAllSplits(c, done + more, rest);
    assert out0[..pos0] + (EncodeAll(c, done).0 + EncodeAll(Coder(low1, range1), more).0)
        == out0[..pos0] + EncodeAll(c, done).0 + EncodeAll(Coder(low1, range1), more).0;
  }

  lemma {:induction false} StartOf(s: seq<Symbol>, next: nat, L: Layout, m: Model, v: Byte)
    requires ModelOk(m) && Table(s, next, L, m, None) && m.history in L.index
    ensures next == m.used && (L.index[m.history] == 0 <==> m.history == []) && Awaits(L, None, m.history, v)
  {
    hide ContextsRep, AllPlaced, AllLinked, ContextsOk;
    RootIndex(L, next);
    IndexOf(L, next, m.history, []);
  }

  /** The code of v from context p on: what p contributes, and what the shorter contexts do if p escapes. */
  lemma {:induction false} EncodeFromUnfolds(m: Model, p: Path, v: Byte)
    requires ContextsOk(m)
    ensures |Ctx(m, p).counts| == 256 && ContextsOk(LearnAt(m, p, v)) && SlotsOk(SlotsAt(m, p, v))
    ensures var e := EncodeFrom(m, p, v);
            if p == [] || Ctx(m, p).counts[v] > 0 then e == (SlotsAt(m, p, v), LearnAt(m, p, v))
            else e == (SlotsAt(m, p, v) + EncodeFrom(LearnAt(m, p, v), p[1..], v).0, EncodeFrom(LearnAt(m, p, v), p[1..], v).1)
  {
    hide Observe, Below, LearnAt;
    assert ContextOk(Ctx(m, p), p);
    LearnOk(m, p, v);
  }

  /** Where the encoder stands after learning v at p: at the end, or about to visit the next shorter context. */
  lemma {:induction false} LearnedHere(s: seq<Symbol>, next: nat, L: Layout, L0: Layout, m: Model, open: Option<Path>, p: Path, v: Byte,
                    symbol: nat, count: nat, nextSymbol: nat)
    requires ContextsOk(m) && HasLearned(s, next, L, L0, m, open, p, v, symbol, count, nextSymbol) && p in L0.index && |p| <= ORDER
    ensures L.index.Keys == L0.index.Keys + {p + [v]} && L.index[p + [v]] == symbol && L.index[p] == L0.index[p]
    ensures forall q :: q in L0.index ==> L.index[q] == L0.index[q]
    ensures next <= nextSymbol + 1 && |Ctx(m, p).counts| == 256 && count == Ctx(m, p).counts[v] + Minimum(p)
    ensures p == [] || count > 0 ==> Table(s, next, L, LearnAt(m, p, v), None)
    ensures count == 0 ==>
              && p != [] && Table(s, next, L, LearnAt(m, p, v), Some(p + [v])) && L.index[p] < |s|
              && p[1..] in L.index && s[L.index[p]].parent == L.index[p[1..]] && (L.index[p[1..]] == 0 <==> p[1..] == [])
              && Awaits(L, Some(p + [v]), p[1..], v) && Waiting(L, Some(p + [v])) == symbol
  {
    hide ContextsRep, AllPlaced, AllLinked, ContextsOk, LearnAt, Indexed;
    if count == 0 {
      assert p + [v] != p;
      LinkOf(s, L, Some(p + [v]), p);
      RootIndex(L, next);
      IndexOf(L, next, p[1..], []);
      assert (p + [v])[1..] == p[1..] + [v];
    }
  }

  // ---- The main loops ----

  lemma {:induction false} ParentReached(s: seq<Symbol>, next: nat, L: Layout, m: Model, q: Path, predicted: nat)
    requires Reached(s, next, L, m, q, predicted) && q != []
    ensures predicted < |s| && 0 < next == m.used && Reached(s, next, L, m, q[1..], s[predicted].parent)
  {
    hide ContextsRep, AllPlaced, AllLinked;
    IndexOf(L, next, q, q);
    LinkOf(s, L, None, q);
  }

  lemma {:induction false} HistoryAside(s: seq<Symbol>, next: nat, L: Layout, m: Model, q: Path, predicted: nat)
    requires Reached(s, next, L, m, q, predicted)
    ensures forall h :: Reached(s, next, L, m.(history := h), q, predicted)
  {
    hide AllPlaced, AllLinked, Indexed, ContextRep;
    forall h: Path ensures Reached(s, next, L, m.(history := h), q, predicted) {
      var m' := m.(history := h);
      assert forall p :: Ctx(m', p) == Ctx(m, p);
      assert ContextsRep(s, L, m');
    }
  }

  lemma {:induction false} FreshReached(s: seq<Symbol>)
    requires |s| == TABLE_SIZE && s[0] == ROOT
    ensures Reached(s, 1, FRESH_LAYOUT, FRESH, [], 0)
  {
    hide Table;
    FreshTable(s);
  }

  function Flatten(buffers: seq<seq<Byte>>): seq<Byte> {
    if buffers == [] then [] else buffers[0] + Flatten(buffers[1..])
  }

  lemma {:induction false} FlattenFrom(buffers: seq<seq<Byte>>, k: nat)
    requires k <= |buffers|
    ensures Flatten(buffers[k..]) == if k == |buffers| then [] else buffers[k] + Flatten(buffers[k + 1..])
    ensures buffers[0..] == buffers
  {
    if k < |buffers| {
      assert buffers[k..][1..] == buffers[k + 1..];
    }
  }

  /** The bytes not yet read: those of the current buffer from `at` on, and those of buffers k and later. */
  function Rest(inBuffers: seq<seq<Byte>>, input: seq<Byte>, at: nat, k: nat): seq<Byte>
    requires at <= |input| && k <= |inBuffers|
  {
    input[at..] + Flatten(inBuffers[k..])
  }

  lemma {:induction false} RestAtStart(inBuffers: seq<seq<Byte>>)
    requires inBuffers != []
    ensures Rest(inBuffers, inBuffers[0], 0, 1) == Flatten(inBuffers)
  {
    FlattenFrom(inBuffers, 0);
    assert inBuffers[0][0..] == inBuffers[0];
  }

  /** The head of the encoder's main loop: the next byte, after moving on to the next buffer if need be. */
  method NextByte(inBuffers: seq<seq<Byte>>, input0: seq<Byte>, at0: nat, k0: nat)
    returns (more: bool, value: Byte, input: seq<Byte>, at: nat, k: nat)
    requires at0 <= |input0| && 1 <= k0 <= |inBuffers| && forall i :: 0 < i < |inBuffers| ==> inBuffers[i] != []
    ensures at <= |input| && k0 <= k <= |inBuffers|
    ensures !more ==> Rest(inBuffers, input0, at0, k0) == [] && Rest(inBuffers, input, at, k) == []
    ensures more ==> Rest(inBuffers, input0, at0, k0) == [value] + Rest(inBuffers, input, at, k)
  {
    hide Flatten;
    more, value, input, at, k := true, 0, input0, at0, k0;
    if at >= |input| {
      FlattenFrom(inBuffers, k);
      if k >= |inBuffers| {
        return false, 0, input, at, k;
      }
      input, at, k := inBuffers[k], 0, k + 1;
    }
    value := input[at];
    at := at + 1;
    assert input[at - 1..] == [value] + input[at..];
  }

  /** The first byte's slots come first in what is left to write. */
  lemma {:induction false} StreamStep(c: Coder, m: Model, v: Byte, rest: seq<Byte>, out: seq<Byte>, pos: nat, all: seq<Byte>)
    requires Ready(c) && ModelOk(m) && pos <= |out| && out[..pos] + Stream(c, Slots(m, [v] + rest)) == all
    ensures var (slots, m') := EncodeByte(m, v);
            var (bytes, c') := EncodeAll(c, slots);
            && out[..pos] + bytes + Stream(c', Slots(m', rest)) == all
            && |all| >= pos + |bytes|
  {
    hide Stream, EncodeAll, EncodeByte;
    var (slots, m') := EncodeByte(m, v);
    var later := Slots(m', rest);
    assert ([v] + rest)[1..] == rest;
    assert Slots(m, [v] + rest) == slots + later;
    StreamSplits(c, slots, later);
    var (bytes, c') := EncodeAll(c, slots);
    assert out[..pos] + (bytes + Stream(c', later)) == out[..pos] + bytes + Stream(c', later);
  }

  lemma {:induction false} StreamEnds(c: Coder, m: Model)
    requires Ready(c) && ModelOk(m)
    ensures Slots(m, []) == [] && Stream(c, []) == Flush(c.low)
  {
  }

  // ---- The decoder ----

  datatype Status = AtEnd | Failing | Onward | Hitting

  /** What probing a context leaves behind, case by case. */
  ghost predicate ProbedAs(r: Ppm.Probed, probe: Status, value: Byte, d: Decoder, s0: seq<Symbol>, s: seq<Symbol>, next: nat,
                         L: Layout, L0: Layout, m: Model, p: Path, symbol: nat, nextSymbol: nat)
    requires ContextsOk(m)
  {
    match r
    case Descend(d') => probe == Onward && d == d' && s == s0 && next == nextSymbol && L == L0
    case Stop(End) => probe == AtEnd
    case Stop(Fail) => probe == Failing
    case Stop(Lost) => true
    case Stop(Found(at, v, d')) =>
      && probe == Hitting && at == p && value == v && d == d' && |Ctx(m, p).counts| == 256
      && HasLearned(s, next, L, L0, m, None, p, v, symbol, Ctx(m, p).counts[v] + Minimum(p), nextSymbol)
  }

  /** What locating a byte leaves behind, case by case. */
  ghost predicate LocatedAs(r: Located, status: Status, value: Byte, d: Decoder, s: seq<Symbol>, next: nat,
                            L: Layout, L0: Layout, m: Model, p: Path, subcontext: nat, bottom: nat, nextSymbol: nat)
    requires ContextsOk(m)
  {
    match r
    case End => status == AtEnd
    case Fail => status == Failing
    case Lost => false
    case Found(at, v, d') =>
      && status == Hitting && p == at && value == v && d == d'
      && p in L0.index && subcontext == L0.index[p] && |Ctx(m, p).counts| == 256
      && HasLearned(s, next, L, L0, m, None, p, v, bottom, Ctx(m, p).counts[v] + Minimum(p), nextSymbol)
  }

  lemma {:induction false} ProbeConcludes(r: Ppm.Probed, status: Status, value: Byte, d: Decoder, s0: seq<Symbol>, s: seq<Symbol>, next: nat,
                       L: Layout, L0: Layout, m: Model, p: Path, subcontext: nat, bottom: nat, nextSymbol: nat)
    requires ContextsOk(m) && ProbedAs(r, status, value, d, s0, s, next, L, L0, m, p, bottom, nextSymbol) && r != Stop(Lost)
    requires p in L0.index && subcontext == L0.index[p]
    ensures status == Onward <==> r.Descend?
    ensures r.Descend? ==> d == r.d && s == s0 && next == nextSymbol && L == L0
    ensures r.Stop? ==> LocatedAs(r.r, status, value, d, s, next, L, L0, m, p, subcontext, bottom, nextSymbol)
  {
    hide HasLearned;
  }

  lemma {:induction false} TableIndex(s: seq<Symbol>, next: nat, L: Layout, m: Model, open: Option<Path>, p: Path)
    requires Table(s, next, L, m, open) && p in L.index
    ensures L.index[p] < next && p in L.trees
  {
    hide ContextsRep, AllPlaced, AllLinked;
    IndexOf(L, next, p, p);
  }

  lemma {:induction false} ContextFields(s: seq<Symbol>, i: nat, t: Tree, ctx: Context, p: Path)
    requires ContextRep(s, i, t, ctx, p)
    ensures i < |s| && |ctx.counts| == 256 && s[i].escapes == ctx.escapes && s[i].total == Total(ctx, p)
  {
  }

  lemma {:induction false} EscapesAtRoot(ctx: Context, p: Path)
    requires ContextOk(ctx, p) && (p == [] || 0 < ctx.escapes)
    ensures 0 < ctx.escapes
  {
  }

  lemma {:induction false} PartPast(ctx: Context, p: Path, part: nat)
    requires |ctx.counts| == 256 && part + ctx.escapes >= Total(ctx, p)
    ensures Below(ctx.counts, 256) <= part
  {
  }

  /** A part short of the total lies in the slot of some value. */
  lemma {:induction false} PartFound(ctx: Context, p: Path, part: nat) returns (v: Byte)
    requires ContextOk(ctx, p) && part + ctx.escapes < Total(ctx, p)
    ensures |ctx.counts| == 256 && v == ValueAt(ctx, p, part, 0) && (p == [] || ctx.counts[v] > 0)
    ensures v * Minimum(p) + Below(ctx.counts, v) <= part < (v + 1) * Minimum(p) + Below(ctx.counts, v + 1)
    ensures SlotOk(SlotOf(ctx, p, v))
  {
    v := ValueAt(ctx, p, part, 0);
    ValueAtFinds(ctx, p, part, 0);
    SlotOfOk(ctx, p, v);
  }

  lemma {:induction false} NoParent(s: seq<Symbol>, parent: nat)
    ensures SetParent(s, -1, parent) == s
  {
  }

  lemma {:induction false} HasLearnedIs(s: seq<Symbol>, next: nat, L: Layout, L0: Layout, m: Model, open: Option<Path>, p: Path, v: Byte,
                     symbol: nat, count: nat, nextSymbol: nat)
    requires ContextsOk(m) && |Ctx(m, p).counts| == 256 && Table(s, next, L, LearnAt(m, p, v), OpenAfter(L0, p, v))
    requires L.index.Keys == L0.index.Keys + {p + [v]} && (forall q :: q in L0.index ==> L.index[q] == L0.index[q])
    requires L.index[p + [v]] == symbol && count == Ctx(m, p).counts[v] + Minimum(p)
    requires p + [v] in L0.index <==> Ctx(m, p).counts[v] > 0
    requires next == if Ctx(m, p).counts[v] == 0 then nextSymbol + 1 else nextSymbol
    ensures HasLearned(s, next, L, L0, m, open, p, v, symbol, count, nextSymbol)
  {
  }

  lemma {:induction false} LocateUnfolds(m: Model, p: Path, d: Decoder)
    requires ContextsOk(m) && DecoderOk(d)
    ensures ContextOk(Ctx(m, p), p)
    ensures match Probe(Ctx(m, p), p, d)
            case Stop(r) => Locate(m, p, d) == r
            case Descend(d') => p != [] && DecoderOk(d') && Locate(m, p, d) == Locate(m, p[1..], d')
  {
    hide Probe;
    assert ContextOk(Ctx(m, p), p);
  }

  /** The parent link of a context leads to the next shorter one. */
  lemma {:induction false} NextShorter(s: seq<Symbol>, next: nat, L: Layout, m: Model, open: Option<Path>, p: Path)
    requires Table(s, next, L, m, open) && p in L.index && p != [] && open != Some(p)
    ensures L.index[p] < |s| && p[1..] in L.index && s[L.index[p]].parent == L.index[p[1..]]
    ensures L.index[p[1..]] == 0 <==> p[1..] == []
  {
    hide ContextsRep, AllPlaced, AllLinked;
    LinkOf(s, L, open, p);
    RootIndex(L, next);
    IndexOf(L, next, p[1..], []);
  }

  lemma {:induction false} DifferentContexts(s: seq<Symbol>, next: nat, L: Layout, m: Model, open: Option<Path>, p: Path, q: Path)
    requires Table(s, next, L, m, open) && p in L.index && q in L.index
    ensures L.index[p] == L.index[q] <==> p == q
  {
    hide ContextsRep, AllPlaced, AllLinked;
    IndexOf(L, next, p, q);
  }

  lemma {:induction false} NothingAwaited(L: Layout, p: Path, v: Byte)
    ensures Awaits(L, None, p, v)
  {
  }

  lemma {:induction false} AwaitedBelow(s: seq<Symbol>, next: nat, L: Layout, m: Model, open: Option<Path>, p: Path, v: Byte)
    requires Table(s, next, L, m, open) && open.Some? && Awaits(L, open, p, v)
    ensures open.value in L.index && open.value != [] && open.value[1..] == p + [v] && 0 <= Waiting(L, open) == L.index[open.value] < |s|
  {
    hide ContextsRep, AllPlaced, AllLinked;
    IndexOf(L, next, open.value, open.value);
  }

  lemma {:induction false} PatchUnfolds(m: Model, p: Path, at: Path, v: Byte)
    requires ContextsOk(m) && |at| < |p| && at == p[|p| - |at|..]
    ensures |Ctx(m, p).counts| == 256 && ContextsOk(LearnAt(m, p, v)) && at == p[1..][|p[1..]| - |at|..]
    ensures Patch(m, p, at, v) == Patch(LearnAt(m, p, v), p[1..], at, v)
  {
    hide Observe, LearnAt;
    assert ContextOk(Ctx(m, p), p);
    LearnOk(m, p, v);
  }

  lemma {:induction false} PatchEnds(m: Model, at: Path, v: Byte)
    requires ContextsOk(m)
    ensures Patch(m, at, at, v) == m
  {
  }

  /** Where the decoder stands after patching context p, whether the byte was new to it or not. */
  lemma {:induction false} PatchedHere(s: seq<Symbol>, next: nat, L: Layout, L0: Layout, m: Model, open: Option<Path>, p: Path, v: Byte,
                    symbol: nat, nextSymbol: nat)
    requires ContextsOk(m) && |Ctx(m, p).counts| == 256 && p in L0.index && p != []
    requires HasLearned(s, next, L, L0, m, open, p, v, symbol, Ctx(m, p).counts[v] + Minimum(p), nextSymbol)
    ensures L.index.Keys == L0.index.Keys + {p + [v]} && L.index[p + [v]] == symbol && next <= nextSymbol + 1
    ensures forall q :: q in L0.index ==> L.index[q] == L0.index[q]
    ensures |Ctx(m, p).counts| == 256 && Table(s, next, L, LearnAt(m, p, v), Some(p + [v])) && L.index[p] < |s|
    ensures p[1..] in L.index && s[L.index[p]].parent == L.index[p[1..]]
    ensures Awaits(L, Some(p + [v]), p[1..], v) && Waiting(L, Some(p + [v])) == symbol
  {
    hide Table, LearnAt;
    assert p + [v] != p;
    if OpenAfter(L0, p, v).None? {
      OpenTable(s, next, L, LearnAt(m, p, v), Some(p + [v]));
    }
    NextShorter(s, next, L, LearnAt(m, p, v), Some(p + [v]), p);
    assert (p + [v])[1..] == p[1..] + [v];
  }

  // ---- The decoder's main loop ----

  /** `ENET_RANGE_CODER_SEED`. */
  method SeedCode(input: seq<Byte>) returns (code: nat, pos: nat)
    ensures code == Word(input) && pos <= |input| && After(input, pos) == Drop(input, 4)
  {
    code, pos := 0, 0;
    if pos < |input| {
      code, pos := code + (input[pos] as nat) * TOP, pos + 1;
    }
    if pos < |input| {
      code, pos := code + (input[pos] as nat) * BOTTOM, pos + 1;
    }
    if pos < |input| {
      code, pos := code + (input[pos] as nat) * 256, pos + 1;
    }
    if pos < |input| {
      code, pos := code + input[pos], pos + 1;
    }
  }

  function Prefixed(out: seq<Byte>, r: Outcome): Outcome {
    if r.Decoded? then Decoded(out + r.data) else r
  }

  lemma {:induction false} PrefixedNothing(r: Outcome)
    ensures Prefixed([], r) == r
  {
    if r.Decoded? {
      assert [] + r.data == r.data;
    }
  }

  lemma {:induction false} PrefixedMore(out: seq<Byte>, v: Byte, r: Outcome)
    ensures Prefixed(out, if r.Decoded? then Decoded([v] + r.data) else r) == Prefixed(out + [v], r)
  {
    if r.Decoded? {
      assert out + ([v] + r.data) == out + [v] + r.data;
    }
  }

  lemma {:induction false} DecodeAllUnfolds(m: Model, d: Decoder, limit: nat)
    requires ModelOk(m) && DecoderOk(d)
    ensures match Locate(m, m.history, d)
            case End => DecodeAll(m, d, limit) == Decoded([])
            case Fail => DecodeAll(m, d, limit) == Failed
            case Lost => DecodeAll(m, d, limit) == Unmodelled
            case Found(at, v, d') =>
              && |at| <= |m.history| && at == m.history[|m.history| - |at|..] && DecoderOk(d')
              && |Ctx(m, at).counts| == 256 && (at != [] ==> Ctx(m, at).counts[v] > 0)
              && if limit == 0 then DecodeAll(m, d, limit) == Failed
                 else
                   var rest := DecodeAll(Ppm.Learned(m, at, v), d', limit - 1);
                   DecodeAll(m, d, limit) == if rest.Decoded? then Decoded([v] + rest.data) else rest
  {
    hide Locate, Ppm.Learned, Observe;
    var r := Locate(m, m.history, d);
    assert r.Found? ==> ContextOk(Ctx(m, r.at), r.at);
  }

  lemma {:induction false} LocatedCases(r: Located, status: Status, value: Byte, d: Decoder, s: seq<Symbol>, next: nat,
                     L: Layout, L0: Layout, m: Model, p: Path, subcontext: nat, bottom: nat, nextSymbol: nat)
    requires ContextsOk(m) && LocatedAs(r, status, value, d, s, next, L, L0, m, p, subcontext, bottom, nextSymbol)
    ensures (status == AtEnd <==> r == End) && (status == Failing <==> r == Fail)
    ensures !(status == AtEnd || status == Failing) ==> status == Hitting && r == Found(p, value, d)
  {
    hide HasLearned;
  }

  /** A byte was found at context p: what the model makes of it. */
  lemma {:induction false} LocateFinds(m: Model, d: Decoder)
    requires ContextsOk(m) && DecoderOk(d)
    ensures var r := Locate(m, m.history, d);
            r.Found? ==>
              && |r.at| <= |m.history| && r.at == m.history[|m.history| - |r.at|..]
              && |Ctx(m, r.at).counts| == 256 && (r.at != [] ==> Ctx(m, r.at).counts[r.value] > 0)
  {
    hide Locate;
    var r := Locate(m, m.history, d);
    assert r.Found? ==> ContextOk(Ctx(m, r.at), r.at);
  }

  /** What one round of the decoder leaves behind, case by case. */
  ghost predicate SteppedAs(r: Located, status: Status, value: Byte, d: Decoder, s: seq<Symbol>, next: nat,
                            L: Layout, m: Model, p: Path, predicted: nat)
    requires ModelOk(m)
  {
    match r
    case End => status == AtEnd
    case Fail => status == Failing
    case Lost => false
    case Found(at, v, d') =>
      && status == Hitting && p == at && value == v && d == d'
      && |p| <= |m.history| && p == m.history[|m.history| - |p|..]
      && Reached(s, next, L, Patched(m, p, v), m.history + [v], predicted)
  }

  lemma {:induction false} SteppedIs(r: Located, status: Status, value: Byte, d: Decoder, s: seq<Symbol>, next: nat,
                  L: Layout, m: Model, p: Path, predicted: nat)
    requires ModelOk(m) && (status == AtEnd <==> r == End) && (status == Failing <==> r == Fail) && r != Lost
    requires r.Found? ==>
               && status == Hitting && r == Found(p, value, d) && |p| <= |m.history| && p == m.history[|m.history| - |p|..]
               && Reached(s, next, L, Patched(m, p, value), m.history + [value], predicted)
    ensures SteppedAs(r, status, value, d, s, next, L, m, p, predicted)
  {
    hide Reached, Patched;
  }

  lemma {:induction false} SteppedCases(r: Located, status: Status, value: Byte, d: Decoder, s: seq<Symbol>, next: nat,
                     L: Layout, m: Model, p: Path, predicted: nat)
    requires ModelOk(m) && SteppedAs(r, status, value, d, s, next, L, m, p, predicted)
    ensures (status == AtEnd <==> r == End) && (status == Failing <==> r == Fail)
    ensures status != AtEnd && status != Failing ==>
              && r == Found(p, value, d) && |p| <= |m.history| && p == m.history[|m.history| - |p|..]
              && Ppm.Learned(m, p, value) == Advance(Patched(m, p, value), value)
              && Reached(s, next, L, Patched(m, p, value), m.history + [value], predicted)
  {
    hide Reached, Patched, Advance;
  }

  lemma {:induction false} NeverLost(m: Model, d: Decoder, limit: nat, out: seq<Byte>)
    requires ModelOk(m) && DecoderOk(d) && Prefixed(out, DecodeAll(m, d, limit)) != Unmodelled
    ensures Locate(m, m.history, d) != Lost
  {
    hide Locate;
    DecodeAllUnfolds(m, d, limit);
  }

  /** What one round contributes to the outcome. */
  lemma {:induction false} RoundOf(d: Decoder, out: seq<Byte>, limit: nat, status: Status, value: Byte, d': Decoder, s: seq<Symbol>, next: nat,
                L: Layout, m: Model, p: Path, predicted: nat)
    requires ModelOk(m) && DecoderOk(d) && SteppedAs(Locate(m, m.history, d), status, value, d', s, next, L, m, p, predicted)
    ensures status == AtEnd ==> Prefixed(out, DecodeAll(m, d, limit)) == Decoded(out)
    ensures status == Failing ==> Prefixed(out, DecodeAll(m, d, limit)) == Failed
    ensures status != AtEnd && status != Failing ==>
              && |p| <= |m.history| && p == m.history[|m.history| - |p|..] && DecoderOk(d')
              && Ppm.Learned(m, p, value) == Advance(Patched(m, p, value), value)
              && Reached(s, next, L, Patched(m, p, value), m.history + [value], predicted)
              && Prefixed(out, DecodeAll(m, d, limit))
                 == if limit == 0 then Failed else Prefixed(out + [value], DecodeAll(Ppm.Learned(m, p, value), d', limit - 1))
  {
    hide DecodeAll, Locate, SteppedAs, Reached, Ppm.Learned, Patched, Advance;
    SteppedCases(Locate(m, m.history, d), status, value, d', s, next, L, m, p, predicted);
    DecodeAllUnfolds(m, d, limit);
    if status == AtEnd {
      assert out + [] == out;
    } else if status != Failing && limit > 0 {
      PrefixedMore(out, value, DecodeAll(Ppm.Learned(m, p, value), d', limit - 1));
    }
  }

  lemma {:induction false} HistoryReached(s: seq<Symbol>, next: nat, L: Layout, m: Model, predicted: nat)
    requires Reached(s, next, L, m, m.history, predicted)
    ensures m.history in L.index && predicted == L.index[m.history]
  {
  }

  lemma {:induction false} FoundModel(v: Byte, m: Model, p: Path)
    requires ModelOk(m) && |p| <= |m.history| && p == m.history[|m.history| - |p|..]
    requires |Ctx(m, p).counts| == 256 && (p != [] ==> Ctx(m, p).counts[v] > 0)
    ensures ContextsOk(LearnAt(m, p, v)) && LearnAt(m, p, v).used + |m.history| <= TABLE_SIZE + |p|
    ensures Patched(m, p, v) == Patch(LearnAt(m, p, v), m.history, p, v)
  {
    hide Observe, ContextOk, Patch;
    LearnOk(m, p, v);
  }

  /** The table represents what the context has learned, ready for the patching. */
  lemma {:induction false} FoundTable(d: Decoder, v: Byte, s: seq<Symbol>, next: nat, L: Layout, L0: Layout, m: Model, p: Path,
                   subcontext: nat, bottom: nat, nextSymbol: nat)
    requires ContextsOk(m) && |Ctx(m, p).counts| == 256 && m.history in L0.index && (p != [] ==> Ctx(m, p).counts[v] > 0)
    requires LocatedAs(Found(p, v, d), Hitting, v, d, s, next, L, L0, m, p, subcontext, bottom, nextSymbol)
    ensures Table(s, next, L, LearnAt(m, p, v), None) && next == LearnAt(m, p, v).used
    ensures m.history in L.index && L.index[m.history] == L0.index[m.history] && p in L.index && subcontext == L.index[p]
    ensures p + [v] in L.index && bottom == L.index[p + [v]]
  {
    hide Table, Observe, ContextsOk, LearnAt;
    UsedIsNext(s, next, L, LearnAt(m, p, v));
  }

  lemma {:induction false} UsedIsNext(s: seq<Symbol>, next: nat, L: Layout, m: Model)
    requires Table(s, next, L, m, None)
    ensures next == m.used
  {
  }

  class RangeCoder {
    const symbols: array<Symbol>

    ghost predicate Valid() {
      symbols.Length == TABLE_SIZE
    }

    /** `enet_range_coder_create`. */
    constructor ()
      ensures Valid() && fresh(symbols)
    {
      symbols := new Symbol[TABLE_SIZE];
    }

    /** `ENET_CONTEXT_CREATE` for the root, always the first symbol of the table. */
    method CreateRoot()
      requires Valid()
      modifies symbols
      ensures symbols[0] == ROOT
    {
      symbols[0] := NewSymbol(0, 0);
      symbols[0] := symbols[0].(escapes := ESCAPE_MINIMUM, total := ESCAPE_MINIMUM + 256 * 1);
    }

    /** `enet_symbol_rescale`. */
    method Rescale(symbol: nat, ghost t: Tree) returns (total: nat)
      requires Valid() && Represents(symbols[..], symbol, t) && Descending(t)
      modifies symbols
      ensures symbol < TABLE_SIZE && (symbols[..], total) == RescaleFrom(old(symbols[..]), symbol, 0)
      decreases t
    {
      hide Represents, Descending, RescaleFrom, RescaledAt, RescaledLeft, HalvedAt, HalfRescaled;
      total := 0;
      var node: nat := symbol;
      ghost var rest := t;
      ghost var start := symbols[..];
      InTable(symbols[..], node, rest);
      while true
        invariant Represents(symbols[..], node, rest) && Descending(rest) && node < TABLE_SIZE
        invariant RescaleFrom(symbols[..], node, total) == RescaleFrom(start, symbol, 0)
        decreases rest
      {
        ghost var s := symbols[..];
        HalvesApart(s, node, rest);
        symbols[node] := symbols[node].(count := symbols[node].count - symbols[node].count / 2);
        symbols[node] := symbols[node].(under := symbols[node].count);
        assert symbols[..] == HalvedAt(s, node) by { HalvedAtIs(s, symbols[..], node); }
        ghost var left := RescaledLeft(s, node);
        if symbols[node].left != 0 {
          HalvedFrame(s, node, rest);
          LeftUnfolds(s, node);
          var below := Rescale(node + symbols[node].left, rest.left);
          symbols[node] := symbols[node].(under := symbols[node].under + below);
        } else {
          LeftUnfolds(s, node);
        }
        assert symbols[..] == RescaledAt(s, node) by { RescaledAtIs(s, left, symbols[..], node); }
        if s[node].left != 0 {
          RescaleHalves(HalvedAt(s, node), node + s[node].left, rest.left, 0);
        }
        LeftIsRescaled(s, node, rest);
        HalfRescaledRight(s, symbols[..], node, rest);
        RightUnfolds(s, node, total);
        total := total + symbols[node].under;
        if symbols[node].right == 0 {
          break;
        }
        node := node + symbols[node].right;
        rest := rest.right;
        InTable(symbols[..], node, rest);
      }
    }

    /** `ENET_CONTEXT_RESCALE`. */
    method ContextRescale(context: nat, minimum: nat, ghost t: Tree, ghost next: nat)
      requires Valid() && context < next <= TABLE_SIZE && HoldsTree(symbols[..], context, t, next)
      modifies symbols
      ensures context + old(symbols[context]).symbols < TABLE_SIZE
      ensures symbols[..] == RescaleContext(old(symbols[..]), context, minimum)
    {
      hide Ordered, Nodes, RescaleFrom, Represents, Descending;
      HeldBelow(symbols[..], context, t, next);
      var total := 0;
      if symbols[context].symbols != 0 {
        total := Rescale(context + symbols[context].symbols, t);
      }
      symbols[context] := symbols[context].(total := total);
      symbols[context] := symbols[context].(escapes := symbols[context].escapes - symbols[context].escapes / 2);
      symbols[context] := symbols[context].(total := symbols[context].total + symbols[context].escapes + 256 * minimum);
    }

    /** What follows every search: the totals grow, and a context grown too large is rescaled. */
    method Settle(context: nat, delta: nat, minimum: nat, count: nat, ghost t: Tree, ghost next: nat)
      requires Valid() && context < next <= TABLE_SIZE && HoldsTree(symbols[..], context, t, next)
      modifies symbols
      ensures context + old(symbols[context]).symbols < TABLE_SIZE
      ensures symbols[..] == SettleAt(old(symbols[..]), context, delta, minimum, count)
    {
      hide RescaleContext;
      HeldBelow(symbols[..], context, t, next);
      ghost var s := symbols[..];
      if count <= 0 {
        symbols[context] := symbols[context].(escapes := symbols[context].escapes + ESCAPE_DELTA,
                                              total := symbols[context].total + ESCAPE_DELTA);
      }
      symbols[context] := symbols[context].(total := symbols[context].total + delta);
      assert symbols[..] == AddTotals(s, context, delta, count);
      HeldAside(s, symbols[..], context, t, next);
      if count > 0xFF - 2 * delta + minimum || symbols[context].total > TOTAL_LIMIT {
        ContextRescale(context, minimum, t, next);
      }
    }

    /** `ENET_CONTEXT_ENCODE`. */
    method ContextEncode(context: nat, value: Byte, update: nat, minimum: nat, nextSymbol: nat, ghost t: Tree)
      returns (symbol: nat, under: int, count: nat, next: nat)
      requires Valid() && context < nextSymbol < TABLE_SIZE && HoldsTree(symbols[..], context, t, nextSymbol) && 0 < update
      modifies symbols
      ensures context + old(symbols[context]).symbols < nextSymbol
      ensures var w := EncodeIn(old(symbols[..]), context, value, update, minimum, nextSymbol);
              && symbols[..] == w.s && symbol == w.symbol && under == w.under && count == w.count + minimum
              && next == if w.count == 0 then nextSymbol + 1 else nextSymbol
    {
      hide Ordered, Nodes, Represents, Descending, EncodeWalk, CountIn;
      ghost var s := symbols[..];
      HeldBelow(s, context, t, nextSymbol);
      under, count, next := value * minimum, minimum, nextSymbol;
      if symbols[context].symbols == 0 {
        symbol := next;
        symbols[next] := NewSymbol(value, update);
        next := next + 1;
        symbols[context] := symbols[context].(symbols := symbol - context);
      } else {
        var node: nat := context + symbols[context].symbols;
        ghost var rest, lo: nat, hi: nat := t, 0, 256;
        NodeBelow(s, node, rest, nextSymbol);
        while true
          invariant node < nextSymbol == next && count == minimum
          invariant Represents(symbols[..], node, rest) && Roomy(rest, nextSymbol) && Ordered(rest, lo, hi)
          invariant EncodeWalk(symbols[..], node, value, update, nextSymbol, under)
                 == EncodeWalk(s, context + s[context].symbols, value, update, nextSymbol, value * minimum)
          decreases rest
        {
          ghost var w := EncodeWalk(symbols[..], node, value, update, nextSymbol, under);
          EncodeWalkStep(symbols[..], node, rest, lo, hi, value, update, nextSymbol, under);
          if value < symbols[node].value {
            symbols[node] := symbols[node].(under := symbols[node].under + update);
            if symbols[node].left != 0 {
              node, rest, hi := node + symbols[node].left, rest.left, rest.value;
              continue;
            }
            symbol := next;
            symbols[next] := NewSymbol(value, update);
            next := next + 1;
            symbols[node] := symbols[node].(left := symbol - node);
          } else if value > symbols[node].value {
            under := under + symbols[node].under;
            if symbols[node].right != 0 {
              node, rest, lo := node + symbols[node].right, rest.right, rest.value + 1;
              continue;
            }
            symbol := next;
            symbols[next] := NewSymbol(value, update);
            next := next + 1;
            symbols[node] := symbols[node].(right := symbol - node);
          } else {
            count := count + symbols[node].count;
            under := under + symbols[node].under - symbols[node].count;
            symbols[node] := symbols[node].(under := symbols[node].under + update);
            symbols[node] := symbols[node].(count := symbols[node].count + update);
            symbol := node;
          }
          assert symbols[..] == w.s;
          break;
        }
      }
    }

    /** `ENET_CONTEXT_TRY_DECODE` with minimum 0, which may miss, and `ENET_CONTEXT_ROOT_DECODE` with minimum 1. */
    method ContextDecode(context: nat, code: nat, update: nat, minimum: nat, nextSymbol: nat, ghost t: Tree)
      returns (hit: bool, value: Byte, symbol: nat, under: int, count: nat, next: nat)
      requires Valid() && context < nextSymbol < TABLE_SIZE && HoldsTree(symbols[..], context, t, nextSymbol) && 0 < update
      requires minimum <= 1
      modifies symbols
      ensures context + old(symbols[context]).symbols < nextSymbol
      ensures match DecodeIn(old(symbols[..]), context, code, update, minimum, nextSymbol)
              case Miss => !hit
              case Hit(v, w) =>
                && hit && value == v && symbols[..] == w.s && symbol == w.symbol && under == w.under && count == w.count + minimum
                && next == if w.symbol == nextSymbol then nextSymbol + 1 else nextSymbol
    {
      hide Ordered, Nodes, Represents, Descending, DecodeWalk, CountIn;
      ghost var s := symbols[..];
      HeldBelow(s, context, t, nextSymbol);
      hit, value, symbol, under, count, next := true, 0, 0, 0, minimum, nextSymbol;
      if symbols[context].symbols == 0 {
        if minimum == 0 {
          return false, 0, 0, 0, 0, nextSymbol;
        }
        value := code / minimum % 256;
        under := code - code % minimum;
        symbol := next;
        symbols[next] := NewSymbol(value, update);
        next := next + 1;
        symbols[context] := symbols[context].(symbols := symbol - context);
      } else {
        var node: nat := context + symbols[context].symbols;
        var sum: nat := 0;
        ghost var rest := t;
        NodeBelow(s, node, rest, nextSymbol);
        while true
          invariant hit && node < nextSymbol == next && count == minimum
          invariant Represents(symbols[..], node, rest) && Roomy(rest, nextSymbol)
          invariant DecodeWalk(symbols[..], node, code, minimum, update, nextSymbol, sum)
                 == DecodeWalk(s, context + s[context].symbols, code, minimum, update, nextSymbol, 0)
          decreases rest
        {
          ghost var d := DecodeWalk(symbols[..], node, code, minimum, update, nextSymbol, sum);
          DecodeWalkStep(symbols[..], node, rest, code, minimum, update, nextSymbol, sum);
          var after: nat := sum + symbols[node].under + (symbols[node].value + 1) * minimum;
          var before := symbols[node].count + minimum;
          if code >= after {
            sum := sum + symbols[node].under;
            if symbols[node].right != 0 {
              node, rest := node + symbols[node].right, rest.right;
              continue;
            }
            if minimum == 0 {
              return false, 0, 0, 0, 0, nextSymbol;
            }
            value := (symbols[node].value + 1 + (code - after) / minimum) % 256;
            under := code - (code - after) % minimum;
            symbol := next;
            symbols[next] := NewSymbol(value, update);
            next := next + 1;
            symbols[node] := symbols[node].(right := symbol - node);
          } else if code < after - before {
            symbols[node] := symbols[node].(under := symbols[node].under + update);
            if symbols[node].left != 0 {
              node, rest := node + symbols[node].left, rest.left;
              continue;
            }
            if minimum == 0 {
              return false, 0, 0, 0, 0, nextSymbol;
            }
            value := (symbols[node].value - 1 - (after - before - code - 1) / minimum) % 256;
            under := code - (after - before - code - 1) % minimum;
            symbol := next;
            symbols[next] := NewSymbol(value, update);
            next := next + 1;
            symbols[node] := symbols[node].(left := symbol - node);
          } else {
            value := symbols[node].value;
            count := count + symbols[node].count;
            under := after - before;
            symbols[node] := symbols[node].(under := symbols[node].under + update);
            symbols[node] := symbols[node].(count := symbols[node].count + update);
            symbol := node;
          }
          assert d.Hit? && symbols[..] == d.walk.s;
          break;
        }
      }
    }

    /** Search and link: what happens at a context before its slot is coded. The symbol reached becomes
        the parent of the one reached before it. */
    method Visit(context: nat, value: Byte, delta: nat, minimum: nat, nextSymbol: nat, waiting: int,
                 ghost p: Path, ghost L: Layout, ghost m: Model, ghost open: Option<Path>)
      returns (symbol: nat, under: nat, count: nat, next: nat, ghost t: Tree)
      requires Valid() && Table(symbols[..], nextSymbol, L, m, open) && ContextsOk(m) && nextSymbol < TABLE_SIZE
      requires p in L.index && |p| <= ORDER && context == L.index[p] && delta == Delta(p) && minimum == Minimum(p)
      requires Awaits(L, open, p, value) && waiting == Waiting(L, open)
      modifies symbols
      ensures context < nextSymbol && context + old(symbols[context]).symbols < nextSymbol
      ensures var w := EncodeIn(old(symbols[..]), context, value, delta, minimum, nextSymbol);
              && symbols[..] == SetParent(w.s, waiting, w.symbol) && symbol == w.symbol
              && next == (if w.count == 0 then nextSymbol + 1 else nextSymbol) && count == w.count + minimum
      ensures var ctx := Ctx(m, p);
              && |ctx.counts| == 256 && under == value * minimum + Below(ctx.counts, value) && count == ctx.counts[value] + minimum
              && symbols[context].escapes == ctx.escapes && symbols[context].total == Total(ctx, p)
      ensures HoldsTree(symbols[..], context, t, nextSymbol + 1)
    {
      hide ContextsRep, AllPlaced, AllLinked, EncodeIn, HoldsTree, Below, ContextRep, EncodedIn, Awaits;
      ghost var s, t0 := symbols[..], L.trees[p];
      assert context < nextSymbol by { IndexOf(L, nextSymbol, p, p); }
      HoldsOf(s, nextSymbol, L, m, open, p);
      hide Indexed;
      EncodeInInserts(s, context, t0, value, delta, minimum, nextSymbol);
      ghost var w := EncodeIn(s, context, value, delta, minimum, nextSymbol);
      EncodedContext(w, s, context, t0, value, nextSymbol, Ctx(m, p), p);
      var sum;
      symbol, sum, count, next := ContextEncode(context, value, delta, minimum, nextSymbol, t0);
      under := sum;
      t := Insert(t0, value, delta, nextSymbol);
      ParentSet(symbols[..], context, t, nextSymbol + 1, waiting, symbol);
      if 0 <= waiting {
        WaitingBelow(s, nextSymbol, L, m, open);
        symbols[waiting] := symbols[waiting].(parent := symbol);
      }
      assert symbols[..] == SetParent(w.s, waiting, w.symbol);
    }

    /** One context of the encoder: search, code the byte's slot or an escape, settle. */
    method CompressAt(context: nat, value: Byte, delta: nat, minimum: nat, nextSymbol: nat, waiting: int,
                      low0: nat, range0: nat, outData: array<Byte>, pos0: nat, outLimit: nat,
                      ghost p: Path, ghost L0: Layout, ghost m: Model, ghost open: Option<Path>)
      returns (ok: bool, symbol: nat, count: nat, next: nat, low: nat, range: nat, pos: nat, ghost L: Layout)
      requires Valid() && Table(symbols[..], nextSymbol, L0, m, open) && ContextsOk(m) && nextSymbol < TABLE_SIZE
      requires p in L0.index && |p| <= ORDER && context == L0.index[p] && delta == Delta(p) && minimum == Minimum(p)
      requires Awaits(L0, open, p, value) && waiting == Waiting(L0, open)
      requires Ready(Coder(low0, range0)) && pos0 <= outLimit <= outData.Length
      modifies symbols, outData
      ensures Coded(ok, low, range, pos, outData[..], Coder(low0, range0), pos0, old(outData[..]), outLimit, SlotsAt(m, p, value))
      ensures ok ==> HasLearned(symbols[..], next, L, L0, m, open, p, value, symbol, count, nextSymbol)
    {
      hide Table, EncodeAll, Encode, EncodeIn, HoldsTree, Below, Total, Awaits, SetParent, SettleAt, ContextOk;
      ghost var s, out0, ctx := symbols[..], outData[..], Ctx(m, p);
      assert ContextOk(ctx, p);
      L := LearnsTable(s, nextSymbol, L0, m, open, p, value);
      var under; ghost var t;
      symbol, under, count, next, t := Visit(context, value, delta, minimum, nextSymbol, waiting, p, L0, m, open);
      var total := symbols[context].total;
      low, range, pos, ok := low0, range0, pos0, true;
      if count > 0 {
        SlotOfOk(ctx, p, value);
        ok, low, range, pos := EncodeSlot(low0, range0, Slot(symbols[context].escapes + under, count, total), outData, pos0, outLimit);
        EncodeOne(Coder(low0, range0), SlotOf(ctx, p, value));
      } else if symbols[context].escapes > 0 && symbols[context].escapes < total {
        EscapeSlotOk(ctx, p);
        ok, low, range, pos := EncodeSlot(low0, range0, Slot(0, symbols[context].escapes, total), outData, pos0, outLimit);
        EncodeOne(Coder(low0, range0), Slot(0, ctx.escapes, Total(ctx, p)));
      } else {
        EncodeNone(Coder(low0, range0));
      }
      if !ok {
        return;
      }
      Settle(context, delta, minimum, count, t, nextSymbol + 1);
    }

    /** One byte of the encoder: from the predicted context down to the first one that knows the byte. */
    method CompressByte(value: Byte, predicted0: nat, nextSymbol: nat, low0: nat, range0: nat,
                        outData: array<Byte>, pos0: nat, outLimit: nat, ghost L0: Layout, ghost m: Model)
      returns (ok: bool, predicted: nat, next: nat, low: nat, range: nat, pos: nat, ghost L: Layout)
      requires Valid() && ModelOk(m) && Reached(symbols[..], nextSymbol, L0, m, m.history, predicted0)
      requires Ready(Coder(low0, range0)) && pos0 <= outLimit <= outData.Length
      modifies symbols, outData
      ensures Coded(ok, low, range, pos, outData[..], Coder(low0, range0), pos0, old(outData[..]), outLimit, EncodeFrom(m, m.history, value).0)
      ensures ok ==> Reached(symbols[..], next, L, EncodeFrom(m, m.history, value).1, m.history + [value], predicted)
    {
      hide Table, EncodeAll, EncodeFrom, Observe, ContextOk, EscapeSlots, HasLearned, Coded, SlotsAt, LearnAt, Awaits;
      predicted, next, low, range, pos, L := predicted0, nextSymbol, low0, range0, pos0, L0;
      var subcontext, waiting: int := predicted0, -1;
      ghost var p, mc, open := m.history, m, None;
      ghost var c0, out0 := Coder(low0, range0), outData[..];
      ghost var slots, learned := EncodeFrom(m, m.history, value).0, EncodeFrom(m, m.history, value).1;
      ghost var done: seq<Slot> := [];
      NothingCoded(c0, pos0, out0, outLimit);
      StartOf(symbols[..], next, L, m, value);
      assert slots == done + slots;
      while subcontext != 0
        invariant Table(symbols[..], next, L, mc, open) && ContextsOk(mc) && p in L.index && subcontext == L.index[p]
        invariant |p| <= ORDER && next + |p| <= nextSymbol + |m.history| && (subcontext == 0 <==> p == [])
        invariant Awaits(L, open, p, value) && waiting == Waiting(L, open)
        invariant if open.None? then p == m.history && waiting < 0
                  else waiting >= 0 && m.history + [value] in L.index && predicted == L.index[m.history + [value]]
        invariant SlotsOk(done) && Coded(true, low, range, pos, outData[..], c0, pos0, out0, outLimit, done)
        invariant slots == done + EncodeFrom(mc, p, value).0 && learned == EncodeFrom(mc, p, value).1
        decreases |p|
      {
        ghost var state, L1 := (low, range, pos, outData[..], next), L;
        EncodeFromUnfolds(mc, p, value);
        CodedReady(low, range, pos, outData[..], c0, pos0, out0, outLimit, done);
        var symbol, count;
        ok, symbol, count, next, low, range, pos, L :=
          CompressAt(subcontext, value, 2, 0, next, waiting, low, range, outData, pos, outLimit, p, L, mc, open);
        MoreCoded(ok, low, range, pos, outData[..], state.0, state.1, state.2, state.3, c0, pos0, out0, outLimit, done, SlotsAt(mc, p, value), slots);
        if !ok {
          return;
        }
        if waiting < 0 {
          predicted := symbol;
        }
        done := done + SlotsAt(mc, p, value);
        LearnedHere(symbols[..], next, L, L1, mc, open, p, value, symbol, count, state.4);
        if count > 0 {
          return;
        }
        waiting, subcontext := symbol, symbols[subcontext].parent;
        mc, open, p := LearnAt(mc, p, value), Some(p + [value]), p[1..];
      }
      ghost var state, L1 := (low, range, pos, outData[..], next), L;
      EncodeFromUnfolds(mc, p, value);
      CodedReady(low, range, pos, outData[..], c0, pos0, out0, outLimit, done);
      var symbol, count;
      ok, symbol, count, next, low, range, pos, L :=
        CompressAt(0, value, 3, 1, next, waiting, low, range, outData, pos, outLimit, p, L, mc, open);
      MoreCoded(ok, low, range, pos, outData[..], state.0, state.1, state.2, state.3, c0, pos0, out0, outLimit, done, SlotsAt(mc, p, value), slots);
      if ok {
        if waiting < 0 {
          predicted := symbol;
        }
        LearnedHere(symbols[..], next, L, L1, mc, open, p, value, symbol, count, state.4);
      }
    }

    /** The end of both main loops: move on to the next context, and start a full table afresh. */
    method Proceed(predicted0: nat, order0: nat, nextSymbol: nat, ghost L0: Layout, ghost m: Model, ghost v: Byte)
      returns (predicted: nat, order: nat, next: nat, ghost L: Layout)
      requires Valid() && ContextsOk(m) && |m.history| <= ORDER && order0 == |m.history|
      requires Reached(symbols[..], nextSymbol, L0, m, m.history + [v], predicted0)
      modifies symbols
      ensures ModelOk(Advance(m, v)) && order == |Advance(m, v).history|
      ensures Reached(symbols[..], next, L, Advance(m, v), Advance(m, v).history, predicted)
    {
      hide Reached, ContextsOk, ContextsRep;
      predicted, order, next, L := predicted0, order0, nextSymbol, L0;
      ghost var q := m.history + [v];
      ParentReached(symbols[..], next, L, m, q, predicted);
      AdvanceOk(m, v);
      if order >= ORDER {
        predicted := symbols[predicted].parent;
        q := q[1..];
      } else {
        order := order + 1;
      }
      HistoryAside(symbols[..], next, L, m, q, predicted);
      if next >= TABLE_SIZE - ORDER {
        CreateRoot();
        predicted, order, next := 0, 0, 1;
        L := FRESH_LAYOUT;
        FreshReached(symbols[..]);
      }
      assert q == (if |m.history| >= ORDER then m.history[1..] else m.history) + [v];
    }

    /** One round of the encoder's main loop. */
    method CompressStep(value: Byte, predicted0: nat, order0: nat, nextSymbol: nat, low0: nat, range0: nat,
                        outData: array<Byte>, pos0: nat, outLimit: nat, ghost L0: Layout, ghost m: Model)
      returns (ok: bool, predicted: nat, order: nat, next: nat, low: nat, range: nat, pos: nat, ghost L: Layout)
      requires Valid() && ModelOk(m) && Reached(symbols[..], nextSymbol, L0, m, m.history, predicted0) && order0 == |m.history|
      requires Ready(Coder(low0, range0)) && pos0 <= outLimit <= outData.Length
      modifies symbols, outData
      ensures Coded(ok, low, range, pos, outData[..], Coder(low0, range0), pos0, old(outData[..]), outLimit, EncodeByte(m, value).0)
      ensures ok ==>
                && order == |EncodeByte(m, value).1.history|
                && Reached(symbols[..], next, L, EncodeByte(m, value).1, EncodeByte(m, value).1.history, predicted)
    {
      hide Reached, EncodeFrom, ContextsOk, Coded, Advance;
      ghost var m' := EncodeFrom(m, m.history, value).1;
      assert ContextsOk(m') && m'.history == m.history;
      ok, predicted, next, low, range, pos, L := CompressByte(value, predicted0, nextSymbol, low0, range0, outData, pos0, outLimit, L0, m);
      order := order0;
      if ok {
        predicted, order, next, L := Proceed(predicted, order, next, L, m', value);
      }
    }

    /** `enet_range_coder_compress`. The main loop moves on by at most one buffer per byte, so every buffer
        after the first must hold one. */
    method Compress(inBuffers: seq<seq<Byte>>, inLimit: nat, outData: array<Byte>, outLimit: nat) returns (n: nat)
      requires Valid() && outLimit <= outData.Length
      requires forall i :: 0 < i < |inBuffers| ==> inBuffers[i] != []
      modifies symbols, outData
      ensures inBuffers == [] || inLimit == 0 ==> n == 0
      ensures inBuffers != [] && inLimit > 0 ==>
                var compressed := Compressed(Flatten(inBuffers));
                && n == (if |compressed| <= outLimit then |compressed| else 0)
                && (n > 0 ==> outData[..n] == compressed)
    {
      hide Stream, Slots, EncodeByte, Normalize, Reached, ModelOk, Flatten, Flush, EncodeAll, Rest;
      if |inBuffers| <= 0 || inLimit <= 0 {
        return 0;
      }
      var input, at: nat, k: nat := inBuffers[0], 0, 1;
      var low: nat, range: nat, pos: nat := 0, WORD - 1, 0;
      var predicted: nat, order: nat, next: nat := 0, 0, 1;
      CreateRoot();
      FreshOk();
      FreshReached(symbols[..]);
      ghost var m, L := FRESH, FRESH_LAYOUT;
      ghost var compressed := Compressed(Flatten(inBuffers));
      assert Flatten(inBuffers) == Rest(inBuffers, input, at, k) by { RestAtStart(inBuffers); }
      assert outData[..pos] + compressed == compressed;
      while true
        invariant at <= |input| && 1 <= k <= |inBuffers|
        invariant ModelOk(m) && Reached(symbols[..], next, L, m, m.history, predicted) && order == |m.history|
        invariant Ready(Coder(low, range)) && pos <= outLimit
        invariant outData[..pos] + Stream(Coder(low, range), Slots(m, Rest(inBuffers, input, at, k))) == compressed
        decreases |Rest(inBuffers, input, at, k)|
      {
        var more, value;
        more, value, input, at, k := NextByte(inBuffers, input, at, k);
        if !more {
          break;
        }
        ghost var rest' := Rest(inBuffers, input, at, k);
        StreamStep(Coder(low, range), m, value, rest', outData[..], pos, compressed);
        var ok;
        ok, predicted, order, next, low, range, pos, L :=
          CompressStep(value, predicted, order, next, low, range, outData, pos, outLimit, L, m);
        if !ok {
          return 0;
        }
        m := EncodeByte(m, value).1;
      }
      StreamEnds(Coder(low, range), m);
      var ok;
      ok, pos := FlushLow(low, outData, pos, outLimit);
      if !ok {
        return 0;
      }
      n := pos;
    }

    /** One context of the decoder: skip it, escape from it, or find the byte in it and settle. */
    method ProbeAt(context: nat, delta: nat, minimum: nat, nextSymbol: nat, low0: nat, range0: nat, code0: nat,
                   input: seq<Byte>, pos0: nat, ghost p: Path, ghost L0: Layout, ghost m: Model)
      returns (probe: Status, value: Byte, symbol: nat, next: nat, low: nat, range: nat, code: nat, pos: nat, ghost L: Layout)
      requires Valid() && Table(symbols[..], nextSymbol, L0, m, None) && ContextsOk(m) && nextSymbol < TABLE_SIZE
      requires p in L0.index && |p| <= ORDER && context == L0.index[p] && delta == Delta(p) && minimum == Minimum(p)
      requires Ready(Coder(low0, range0)) && code0 < WORD && pos0 <= |input|
      requires Probe(Ctx(m, p), p, Decoder(Coder(low0, range0), code0, After(input, pos0))) != Stop(Lost)
      modifies symbols
      ensures pos <= |input|
      ensures ProbedAs(Probe(Ctx(m, p), p, Decoder(Coder(low0, range0), code0, After(input, pos0))), probe, value,
                     Decoder(Coder(low, range), code, After(input, pos)), old(symbols[..]), symbols[..], next, L, L0, m, p, symbol, nextSymbol)
    {
      hide Table, Decode, EncodeIn, DecodeIn, HoldsTree, Below, Total, SetParent, SettleAt, ContextOk, ContextRep, EncodedIn, ValueAt, HasLearned;
      ghost var s, ctx, d := symbols[..], Ctx(m, p), Decoder(Coder(low0, range0), code0, After(input, pos0));
      assert ContextOk(ctx, p);
      TableIndex(s, nextSymbol, L0, m, None, p);
      HoldsOf(s, nextSymbol, L0, m, None, p);
      ContextFields(s, context, L0.trees[p], ctx, p);
      low, range, code, pos, next, L := low0, range0, code0, pos0, nextSymbol, L0;
      probe, value, symbol := Onward, 0, 0;
      if minimum == 0 && (symbols[context].escapes <= 0 || symbols[context].escapes >= symbols[context].total) {
        return;
      }
      assert 0 < ctx.escapes by { EscapesAtRoot(ctx, p); }
      EscapeSlotOk(ctx, p);
      var total := symbols[context].total;
      var share := range0 / total;
      QuotientIsPositive(range0, total);
      var part := (code0 - low0) % WORD / share % BOTTOM;
      assert part == Read(d, total);
      if part < symbols[context].escapes {
        low, range, code, pos := DecodeSlot(low0, share, code0, Slot(0, symbols[context].escapes, total), input, pos0, range0);
        probe := if minimum == 0 then Onward else AtEnd;
        return;
      }
      part := part - symbols[context].escapes;
      if part + symbols[context].escapes >= total {
        PartPast(ctx, p, part);
        DecodeInMisses(s, nextSymbol, L0, m, None, p, part);
      } else {
        ghost var v := PartFound(ctx, p, part);
        DecodeInAgrees(s, nextSymbol, L0, m, None, p, v, part);
        L := LearnsTable(s, nextSymbol, L0, m, None, p, v);
      }
      var hit, sum, count;
      hit, value, symbol, sum, count, next := ContextDecode(context, part, delta, minimum, nextSymbol, L0.trees[p]);
      if !hit {
        probe := Failing;
        return;
      }
      probe := Hitting;
      ghost var w := EncodeIn(s, context, value, delta, minimum, nextSymbol);
      ghost var t := Insert(L0.trees[p], value, delta, nextSymbol);
      EncodeInInserts(s, context, L0.trees[p], value, delta, minimum, nextSymbol);
      EncodedContext(w, s, context, L0.trees[p], value, nextSymbol, ctx, p);
      assert symbols[..] == SetParent(w.s, -1, w.symbol) by { NoParent(w.s, w.symbol); }
      low, range, code, pos := DecodeSlot(low0, share, code0, Slot(symbols[context].escapes + sum, count, total), input, pos0, range0);
      Settle(context, delta, minimum, count, t, nextSymbol + 1);
      assert HasLearned(symbols[..], next, L, L0, m, None, p, value, symbol, count, nextSymbol) by { HasLearnedIs(symbols[..], next, L, L0, m, None, p, value, symbol, count, nextSymbol); }
    }

    /** The search for the next byte, from the predicted context down. On a hit the context that has the
        byte has already learned it; the longer ones are still to be patched. */
    method LocateByte(predicted: nat, nextSymbol: nat, low0: nat, range0: nat, code0: nat, input: seq<Byte>, pos0: nat,
                      ghost L0: Layout, ghost m: Model)
      returns (status: Status, subcontext: nat, value: Byte, bottom: nat, next: nat, low: nat, range: nat, code: nat, pos: nat,
               ghost p: Path, ghost L: Layout)
      requires Valid() && ModelOk(m) && Reached(symbols[..], nextSymbol, L0, m, m.history, predicted)
      requires Ready(Coder(low0, range0)) && code0 < WORD && pos0 <= |input|
      requires Locate(m, m.history, Decoder(Coder(low0, range0), code0, After(input, pos0))) != Lost
      modifies symbols
      ensures pos <= |input|
      ensures LocatedAs(Locate(m, m.history, Decoder(Coder(low0, range0), code0, After(input, pos0))), status, value,
                        Decoder(Coder(low, range), code, After(input, pos)), symbols[..], next, L, L0, m, p, subcontext, bottom, nextSymbol)
    {
      hide Table, Locate, Probe, Observe, ContextOk, HasLearned, LearnAt, Decode, ProbedAs, LocatedAs;
      low, range, code, pos, next, L := low0, range0, code0, pos0, nextSymbol, L0;
      status, subcontext, value, bottom, p := Onward, predicted, 0, 0, m.history;
      ghost var all := Locate(m, m.history, Decoder(Coder(low, range), code, After(input, pos)));
      StartOf(symbols[..], next, L, m, 0);
      while subcontext != 0
        invariant p in L0.index && |p| <= ORDER && subcontext == L0.index[p] && (subcontext == 0 <==> p == [])
        invariant next == nextSymbol && L == L0 && Table(symbols[..], nextSymbol, L0, m, None)
        invariant Ready(Coder(low, range)) && code < WORD && pos <= |input|
        invariant all == Locate(m, p, Decoder(Coder(low, range), code, After(input, pos)))
        decreases |p|
      {
        ghost var d, s := Decoder(Coder(low, range), code, After(input, pos)), symbols[..];
        LocateUnfolds(m, p, d);
        status, value, bottom, next, low, range, code, pos, L :=
          ProbeAt(subcontext, 2, 0, nextSymbol, low, range, code, input, pos, p, L0, m);
        ProbeConcludes(Probe(Ctx(m, p), p, d), status, value, Decoder(Coder(low, range), code, After(input, pos)),
                       s, symbols[..], next, L, L0, m, p, subcontext, bottom, nextSymbol);
        if status != Onward {
          return;
        }
        NextShorter(symbols[..], nextSymbol, L0, m, None, p);
        subcontext := symbols[subcontext].parent;
        p := p[1..];
      }
      ghost var d, s := Decoder(Coder(low, range), code, After(input, pos)), symbols[..];
      LocateUnfolds(m, p, d);
      status, value, bottom, next, low, range, code, pos, L :=
        ProbeAt(0, 3, 1, nextSymbol, low, range, code, input, pos, p, L0, m);
      ProbeConcludes(Probe(Ctx(m, p), p, d), status, value, Decoder(Coder(low, range), code, After(input, pos)),
                     s, symbols[..], next, L, L0, m, p, subcontext, bottom, nextSymbol);
    }

    /** One context of the patching: the byte is added, or counted, without being coded. */
    method PatchAt(context: nat, value: Byte, nextSymbol: nat, waiting: int,
                   ghost p: Path, ghost L0: Layout, ghost m: Model, ghost open: Option<Path>)
      returns (symbol: nat, next: nat, ghost L: Layout)
      requires Valid() && Table(symbols[..], nextSymbol, L0, m, open) && ContextsOk(m) && nextSymbol < TABLE_SIZE
      requires p in L0.index && 0 < |p| <= ORDER && context == L0.index[p]
      requires Awaits(L0, open, p, value) && waiting == Waiting(L0, open)
      modifies symbols
      ensures |Ctx(m, p).counts| == 256
      ensures HasLearned(symbols[..], next, L, L0, m, open, p, value, symbol, Ctx(m, p).counts[value] + Minimum(p), nextSymbol)
    {
      hide Table, EncodeIn, HoldsTree, Below, Total, Awaits, SetParent, SettleAt, ContextOk, LearnAt, Waiting;
      L := LearnsTable(symbols[..], nextSymbol, L0, m, open, p, value);
      var under, count; ghost var t;
      symbol, under, count, next, t := Visit(context, value, 2, 0, nextSymbol, waiting, p, L0, m, open);
      Settle(context, 2, 0, count, t, nextSymbol + 1);
    }

    /** `patchContexts`: the contexts that escaped the byte learn it as the encoder's did, and the symbols
        created for it are linked to each other and to the one it was found at. */
    method PatchByte(value: Byte, predicted0: nat, subcontext: nat, bottom: nat, nextSymbol: nat,
                     ghost at: Path, ghost L0: Layout, ghost history: Path, ghost m: Model)
      returns (predicted: nat, next: nat, ghost L: Layout)
      requires Valid() && ContextsOk(m) && Table(symbols[..], nextSymbol, L0, m, None) && |history| <= ORDER
      requires |at| <= |history| && at == history[|history| - |at|..] && nextSymbol + |history| <= TABLE_SIZE + |at|
      requires history in L0.index && predicted0 == L0.index[history] && at in L0.index && subcontext == L0.index[at]
      requires at + [value] in L0.index && bottom == L0.index[at + [value]]
      modifies symbols
      ensures Reached(symbols[..], next, L, Patch(m, history, at, value), history + [value], predicted)
    {
      hide Table, Patch, Observe, ContextOk, HasLearned, LearnAt, Awaits;
      predicted, next, L := predicted0, nextSymbol, L0;
      var patch, waiting: int := predicted0, -1;
      ghost var p, mc, open := history, m, None;
      ghost var all := Patch(m, history, at, value);
      NothingAwaited(L, p, value);
      DifferentContexts(symbols[..], next, L, mc, open, p, at);
      while patch != subcontext
        invariant Table(symbols[..], next, L, mc, open) && ContextsOk(mc) && p in L.index && patch == L.index[p] && |p| <= ORDER
        invariant |at| <= |p| && at == p[|p| - |at|..] && next + |p| <= TABLE_SIZE + |at| && (patch == subcontext <==> p == at)
        invariant Awaits(L, open, p, value) && waiting == Waiting(L, open)
        invariant at in L.index && subcontext == L.index[at] && at + [value] in L.index && bottom == L.index[at + [value]]
        invariant if open.None? then p == history && waiting < 0
                  else waiting >= 0 && history + [value] in L.index && predicted == L.index[history + [value]]
        invariant all == Patch(mc, p, at, value)
        decreases |p|
      {
        ghost var next0, L1 := next, L;
        assert |p| != |at|;
        PatchUnfolds(mc, p, at, value);
        var symbol;
        symbol, next, L := PatchAt(patch, value, next, waiting, p, L1, mc, open);
        if waiting < 0 {
          predicted := symbol;
        }
        PatchedHere(symbols[..], next, L, L1, mc, open, p, value, symbol, next0);
        DifferentContexts(symbols[..], next, L, LearnAt(mc, p, value), Some(p + [value]), p[1..], at);
        waiting, patch := symbol, symbols[patch].parent;
        mc, open, p := LearnAt(mc, p, value), Some(p + [value]), p[1..];
      }
      assert all == mc by { PatchEnds(mc, at, value); }
      if waiting < 0 {
        predicted := bottom;
      } else {
        AwaitedBelow(symbols[..], next, L, mc, open, p, value);
        CloseTable(symbols[..], next, L, mc, open.value);
        ghost var s := symbols[..];
        symbols[waiting] := symbols[waiting].(parent := bottom);
        assert symbols[..] == SetParent(s, waiting, bottom);
      }
    }

    /** One round of the decoder's main loop, up to the output of the byte. */
    method DecompressStep(predicted0: nat, nextSymbol: nat, low0: nat, range0: nat, code0: nat, input: seq<Byte>, pos0: nat,
                          ghost L0: Layout, ghost m: Model)
      returns (status: Status, value: Byte, predicted: nat, next: nat, low: nat, range: nat, code: nat, pos: nat, ghost L: Layout, ghost p: Path)
      requires Valid() && ModelOk(m) && Reached(symbols[..], nextSymbol, L0, m, m.history, predicted0)
      requires Ready(Coder(low0, range0)) && code0 < WORD && pos0 <= |input|
      requires Locate(m, m.history, Decoder(Coder(low0, range0), code0, After(input, pos0))) != Lost
      modifies symbols
      ensures pos <= |input|
      ensures SteppedAs(Locate(m, m.history, Decoder(Coder(low0, range0), code0, After(input, pos0))), status, value,
                        Decoder(Coder(low, range), code, After(input, pos)), symbols[..], next, L, m, p, predicted)
    {
      hide Table, Locate, LocatedAs, SteppedAs, Reached, ContextsOk, Patch, Patched, LearnAt, Observe;
      ghost var r := Locate(m, m.history, Decoder(Coder(low0, range0), code0, After(input, pos0)));
      var subcontext, bottom;
      status, subcontext, value, bottom, next, low, range, code, pos, p, L :=
        LocateByte(predicted0, nextSymbol, low0, range0, code0, input, pos0, L0, m);
      predicted := predicted0;
      ghost var d := Decoder(Coder(low, range), code, After(input, pos));
      LocatedCases(r, status, value, d, symbols[..], next, L, L0, m, p, subcontext, bottom, nextSymbol);
      if status == Hitting {
        LocateFinds(m, Decoder(Coder(low0, range0), code0, After(input, pos0)));
        FoundModel(value, m, p);
        HistoryReached(old(symbols[..]), nextSymbol, L0, m, predicted);
        FoundTable(d, value, symbols[..], next, L, L0, m, p, subcontext, bottom, nextSymbol);
        predicted, next, L := PatchByte(value, predicted, subcontext, bottom, next, p, L, m.history, LearnAt(m, p, value));
      }
      SteppedIs(r, status, value, d, symbols[..], next, L, m, p, predicted);
    }

    /** `enet_range_coder_decompress`, for streams that never lead past the last slot of the root. */
    method Decompress(inData: seq<Byte>, inLimit: nat, outData: array<Byte>, outLimit: nat) returns (n: nat)
      requires Valid() && inLimit <= |inData| && outLimit <= outData.Length
      requires Decompressed(inData[..inLimit], outLimit) != Unmodelled
      modifies symbols, outData
      ensures inLimit == 0 ==> n == 0
      ensures inLimit > 0 ==>
                match Decompressed(inData[..inLimit], outLimit)
                case Decoded(data) => n == |data| <= outLimit && outData[..n] == data
                case Failed => n == 0
                case Unmodelled => false
    {
      hide DecodeAll, Locate, SteppedAs, Reached, ContextsOk, Word, Drop, Ppm.Learned, Patched, Advance, Prefixed;
      if inLimit <= 0 {
        return 0;
      }
      var input := inData[..inLimit];
      var low: nat, range: nat, code: nat, pos: nat := 0, WORD - 1, 0, 0;
      var predicted: nat, order: nat, next: nat := 0, 0, 1;
      CreateRoot();
      code, pos := SeedCode(input);
      FreshOk();
      FreshReached(symbols[..]);
      ghost var m, L, all := FRESH, FRESH_LAYOUT, Decompressed(input, outLimit);
      n := 0;
      assert all == Prefixed([], all) by { PrefixedNothing(all); }
      while true
        invariant n <= outLimit && pos <= |input| && Ready(Coder(low, range)) && code < WORD
        invariant ModelOk(m) && Reached(symbols[..], next, L, m, m.history, predicted) && order == |m.history|
        invariant all == Prefixed(outData[..n], DecodeAll(m, Decoder(Coder(low, range), code, After(input, pos)), outLimit - n))
        decreases outLimit - n
      {
        ghost var d, out := Decoder(Coder(low, range), code, After(input, pos)), outData[..n];
        NeverLost(m, d, outLimit - n, out);
        var status, value; ghost var p;
        status, value, predicted, next, low, range, code, pos, L, p := DecompressStep(predicted, next, low, range, code, input, pos, L, m);
        ghost var d' := Decoder(Coder(low, range), code, After(input, pos));
        RoundOf(d, out, outLimit - n, status, value, d', symbols[..], next, L, m, p, predicted);
        if status == AtEnd {
          break;
        }
        if status == Failing {
          return 0;
        }
        if n >= outLimit {
          return 0;
        }
        outData[n] := value;
        n := n + 1;
        assert outData[..n] == out + [value];
        predicted, order, next, L := Proceed(predicted, order, next, L, Patched(m, p, value), value);
        m := Ppm.Learned(m, p, value);
      }
    }
  }

  /** After every byte the two coders have taken as many symbols, expect the same context, and their tables are
      isomorphic; they started them afresh at the same bytes. */
  lemma {:induction false} TablesInStep(data: seq<Byte>, k: nat, s: seq<Symbol>, next: nat, L: Layout, predicted: nat,
                                        s': seq<Symbol>, next': nat, L': Layout, predicted': nat, p: Path)
    requires k <= |data| && ModelOk(FRESH)
    requires var m := EncoderAfter(FRESH, data[..k]); Reached(s, next, L, m, m.history, predicted)
    requires var r := DecoderAfter(FRESH, Seed(Compressed(data)), k);
             r.Decoding? && Reached(s', next', L', r.model, r.model.history, predicted')
    ensures next == next'
    ensures var h := EncoderAfter(FRESH, data[..k]).history;
            h in L.index && h in L'.index && predicted == L.index[h] && predicted' == L'.index[h]
    ensures p in L.index <==> p in L'.index
    ensures p in L.index ==>
              var x, y := s[L.index[p]], s'[L'.index[p]];
              && x.escapes == y.escapes && x.total == y.total
              && (p != [] ==> x.value == y.value && x.count == y.count && p[1..] in L.index && p[1..] in L'.index
                              && x.parent == L.index[p[1..]] && y.parent == L'.index[p[1..]])
  {
    hide EncoderAfter, DecoderAfter, Compressed;
    InStep(data, k);
    TablesIsomorphic(s, L, s', L', next, EncoderAfter(FRESH, data[..k]), p);
  }

  /** Decompressing what was compressed into enough room gives back the bytes of all buffers, with two
      coders, whatever their tables held before. */
  method RoundTripOf(sender: RangeCoder, receiver: RangeCoder, inBuffers: seq<seq<Byte>>, packed: array<Byte>, unpacked: array<Byte>)
    returns (n: nat, size: nat)
    requires sender.Valid() && receiver.Valid() && packed != unpacked
    requires inBuffers != [] && forall i :: 0 < i < |inBuffers| ==> inBuffers[i] != []
    requires |Flatten(inBuffers)| <= unpacked.Length
    modifies sender.symbols, receiver.symbols, packed, unpacked
    ensures n <= packed.Length
    ensures n > 0 ==> size == |Flatten(inBuffers)| && unpacked[..size] == Flatten(inBuffers)
  {
    n := sender.Compress(inBuffers, 1, packed, packed.Length);
    size := 0;
    if n > 0 {
      RoundTrip(Flatten(inBuffers), unpacked.Length);
      assert packed[..][..n] == packed[..n];
      size := receiver.Decompress(packed[..], n, unpacked, unpacked.Length);
    }
  }
}
