/** What the compressor's model gathers, in the numbers of the source: counts, escapes, totals and the context. */
module Statistics {
  import opened Carryless
  import opened FrequencyModel
  import opened Ppm

  // ---- One context ----

  /** A context before it has learned anything. */
  function Untaught(root: bool): Context { Context(Zeros(256), if root then 1 else 0) }

  function Taught(root: bool, s: seq<Byte>): (ctx: Context)
    ensures |ctx.counts| == 256
  {
    if s == [] then Untaught(root)
    else Observe(Taught(root, s[..|s| - 1]), PathOf(root), s[|s| - 1])
  }

  /** The contexts differ only in whether they are the root. */
  function PathOf(root: bool): Path { if root then [] else [0] }

  function Distinct(s: seq<Byte>): nat { |Values(s)| }

  function Values(s: seq<Byte>): set<Byte> { set v: Byte | v in s }

  /** How many of the bytes are less than v. */
  function Smaller(s: seq<Byte>, v: nat): nat {
    if s == [] then 0 else Smaller(s[..|s| - 1], v) + if s[|s| - 1] < v then 1 else 0
  }

  /** Learning the bytes never leads to halving. */
  predicate Calm(root: bool, s: seq<Byte>) {
    s == [] || (Calm(root, s[..|s| - 1]) && StaysCalm(root, s[..|s| - 1], s[|s| - 1]))
  }

  predicate StaysCalm(root: bool, s: seq<Byte>, v: Byte) {
    if root then 3 * multiset(s)[v] + 1 <= 250 && 1 + 3 * (|s| + 1) + 256 <= 65280
    else 2 * multiset(s)[v] <= 251 && 5 * Distinct(s + [v]) + 2 * (|s| + 1) <= 65280
  }

  /** A context holds twice the number of times it has learned each byte, and five escapes for each different byte; the root
      three times the number, one escape, and one part more for every byte there is. */
  ghost predicate Counted(root: bool, s: seq<Byte>, ctx: Context) {
    && |ctx.counts| == 256
    && (forall v: Byte :: ctx.counts[v] == (if root then 3 else 2) * multiset(s)[v])
    && ctx.escapes == (if root then 1 else 5 * Distinct(s))
    && (forall v :: 0 <= v <= 256 ==> Below(ctx.counts, v) == (if root then 3 else 2) * Smaller(s, v))
    && Total(ctx, PathOf(root)) == if root then 1 + 3 * |s| + 256 else 5 * Distinct(s) + 2 * |s|
  }

  lemma {:induction false} CountsExactly(root: bool, s: seq<Byte>)
    requires Calm(root, s)
    ensures Counted(root, s, Taught(root, s))
  {
    hide Observe, Counted, StaysCalm;
    if s == [] {
      UntaughtIs(root);
    } else {
      var n := |s| - 1;
      CountsExactly(root, s[..n]);
      TeachesOne(root, s[..n], Taught(root, s[..n]), s[n]);
      assert s[..n] + [s[n]] == s;
    }
  }

  lemma {:induction false} TeachesOne(root: bool, s: seq<Byte>, ctx: Context, v: Byte)
    requires Counted(root, s, ctx) && StaysCalm(root, s, v)
    ensures Counted(root, s + [v], Observe(ctx, PathOf(root), v))
  {
    hide Observe, Total, Distinct, Below, Smaller;
    var d, next := if root then 3 else 2, Observe(ctx, PathOf(root), v);
    var counts := ctx.counts[v := ctx.counts[v] + d];
    OneMore(s, v);
    forall w | 0 <= w <= 256 ensures Below(counts, w) == d * Smaller(s + [v], w) {
      BelowUpdate(ctx.counts, v, ctx.counts[v] + d, w);
      OneSmaller(s, v, w);
    }
    AllSmaller(s + [v]);
    HalvedExactly(ctx, PathOf(root), v);
    TotalIs(next, PathOf(root));
  }

  lemma {:induction false} TotalIs(ctx: Context, p: Path)
    requires |ctx.counts| == 256
    ensures Total(ctx, p) == ctx.escapes + Below(ctx.counts, 256) + if p == [] then 256 else 0
  {
  }

  lemma {:induction false} UntaughtIs(root: bool)
    ensures Counted(root, [], Untaught(root))
  {
    forall v | 0 <= v <= 256 ensures Below(Untaught(root).counts, v) == 0 { BelowZero(Untaught(root).counts, v); }
  }

  lemma {:induction false} OneMore(s: seq<Byte>, v: Byte)
    ensures forall w: Byte :: multiset(s + [v])[w] == multiset(s)[w] + if w == v then 1 else 0
    ensures Distinct(s + [v]) == Distinct(s) + if multiset(s)[v] == 0 then 1 else 0
  {
    assert Values(s + [v]) == Values(s) + {v};
    assert v in s <==> multiset(s)[v] > 0;
    if v in s {
      assert Values(s) + {v} == Values(s);
    } else {
      assert v !in Values(s);
    }
  }

  lemma {:induction false} OneSmaller(s: seq<Byte>, v: Byte, w: nat)
    ensures Smaller(s + [v], w) == Smaller(s, w) + if v < w then 1 else 0
  {
    assert (s + [v])[..|s|] == s;
  }

  lemma {:induction false} AllSmaller(s: seq<Byte>)
    ensures Smaller(s, 256) == |s|
  {
    if s != [] { AllSmaller(s[..|s| - 1]); }
  }

  /** The slot of a byte begins after the escapes and the parts of the smaller bytes. */
  lemma {:induction false} SlotExactly(root: bool, s: seq<Byte>, v: Byte)
    requires Calm(root, s)
    ensures SlotOf(Taught(root, s), PathOf(root), v) ==
            if root then Slot(1 + v + 3 * Smaller(s, v), 3 * multiset(s)[v] + 1, 1 + 3 * |s| + 256)
            else Slot(5 * Distinct(s) + 2 * Smaller(s, v), 2 * multiset(s)[v], 5 * Distinct(s) + 2 * |s|)
  {
    hide Taught, Calm, Total;
    CountsExactly(root, s);
  }

  /** Learning a byte adds 2 to its count, and 5 escapes if it is new; at the root it adds 3. Then everything is halved,
      rounding up, exactly if the count before was above 251, or 250 at the root with the one part every byte has, or the
      total has got above 65280. */
  lemma {:induction false} HalvedExactly(ctx: Context, p: Path, v: Byte)
    requires |ctx.counts| == 256
    ensures var root := p == [];
            var count := ctx.counts[v] + if root then 1 else 0;
            var counts := ctx.counts[v := ctx.counts[v] + if root then 3 else 2];
            var escapes := if !root && count == 0 then ctx.escapes + 5 else ctx.escapes;
            var total := escapes + Below(counts, 256) + if root then 256 else 0;
            var next := Observe(ctx, p, v);
            if count > (if root then 250 else 251) || total > 65280 then
              && next.escapes == (escapes + 1) / 2
              && |next.counts| == 256 && forall w :: 0 <= w < 256 ==> next.counts[w] == (counts[w] + 1) / 2
            else next == Context(counts, escapes)
  {
  }

  // ---- One byte ----

  /** The escapes written on the way from context p past the next k, each with its share of the parts. */
  function Escapes(m: Model, p: Path, k: nat): seq<Slot>
    requires ContextsOk(m) && k <= |p|
  {
    if k == 0 then []
    else
      var ctx := Ctx(m, p);
      assert ContextOk(ctx, p);
      (if ctx.escapes > 0 then [Slot(0, ctx.escapes, Total(ctx, p))] else []) + Escapes(m, p[1..], k - 1)
  }

  /** The contexts a byte is learned in: p and the next k shorter ones. */
  predicate Visited(p: Path, k: nat, q: Path) { |q| <= |p| <= |q| + k && q == p[|p| - |q|..] }

  /** A byte is coded in the longest context that knows it, or at the root, behind the escapes of the longer ones. It is
      learned in those contexts and that one, and in no other. */
  lemma {:induction false} EncodedExactly(m: Model, p: Path, v: Byte) returns (k: nat)
    requires ContextsOk(m)
    ensures k <= |p| && (forall i :: 0 <= i < k ==> Ctx(m, p[i..]).counts[v] == 0)
    ensures k == |p| || Ctx(m, p[k..]).counts[v] > 0
    ensures var (slots, next) := EncodeFrom(m, p, v);
            && ContextOk(Ctx(m, p[k..]), p[k..]) && slots == Escapes(m, p, k) + [SlotOf(Ctx(m, p[k..]), p[k..], v)]
            && forall q :: ContextOk(Ctx(m, q), q)
                           && Ctx(next, q) == if Visited(p, k, q) then Observe(Ctx(m, q), q, v) else Ctx(m, q)
    decreases |p|
  {
    hide Observe, ContextOk, SlotOf, Total, Visited;
    VisitedItself(p);
    var ctx := Ctx(m, p);
    assert ContextOk(ctx, p);
    WellSized(ctx, p);
    LearnOk(m, p, v);
    var learned := LearnAt(m, p, v);
    assert Ctx(learned, p) == Observe(ctx, p, v);
    if p == [] || ctx.counts[v] > 0 {
      k := 0;
      assert p[0..] == p;
    } else {
      var h := EncodedExactly(learned, p[1..], v);
      k := h + 1;
      assert forall i :: 0 < i <= |p| ==> p[i..] == p[1..][i - 1..] && p[i..] != p;
      assert p[0..] == p;
      EscapesSame(m, learned, p, p[1..], h);
      EscapesWritten(ctx, p);
      VisitedNext(p, h);
    }
  }

  lemma {:induction false} VisitedItself(p: Path)
    ensures forall q :: Visited(p, 0, q) <==> q == p
  {
    assert p[0..] == p;
  }

  lemma {:induction false} VisitedNext(p: Path, k: nat)
    requires p != []
    ensures !Visited(p[1..], k, p) && forall q :: Visited(p, k + 1, q) <==> q == p || Visited(p[1..], k, q)
  {
    forall q ensures Visited(p, k + 1, q) <==> q == p || Visited(p[1..], k, q) {
      if |q| < |p| { assert p[|p| - |q|..] == p[1..][|p| - 1 - |q|..]; }
      if |q| == |p| { assert p[0..] == p; }
    }
  }

  lemma {:induction false} WellSized(ctx: Context, p: Path)
    requires ContextOk(ctx, p)
    ensures |ctx.counts| == 256
  {
  }

  lemma {:induction false} EscapesWritten(ctx: Context, p: Path)
    requires ContextOk(ctx, p)
    ensures EscapeSlots(ctx, p) == if ctx.escapes > 0 then [Slot(0, ctx.escapes, Total(ctx, p))] else []
  {
    if ctx.escapes > 0 { EscapeSlotOk(ctx, p); }
  }

  lemma {:induction false} EscapesSame(m: Model, n: Model, p: Path, q: Path, k: nat)
    requires ContextsOk(m) && ContextsOk(n) && k <= |q| < |p| && forall r: Path :: r != p ==> Ctx(n, r) == Ctx(m, r)
    ensures Escapes(n, q, k) == Escapes(m, q, k)
  {
    hide ContextOk;
    if k > 0 { EscapesSame(m, n, p, q[1..], k - 1); }
  }

  // ---- All bytes ----

  lemma {:induction false} AfterOneMore(m: Model, data: seq<Byte>)
    requires ModelOk(m) && data != []
    ensures EncoderAfter(m, data) == EncodeByte(EncoderAfter(m, data[..|data| - 1]), data[|data| - 1]).1
    decreases |data|
  {
    hide EncodeByte;
    var n := |data| - 1;
    if n > 0 {
      AfterOneMore(EncodeByte(m, data[0]).1, data[1..]);
      assert data[1..][..n - 1] == data[..n][1..];
    } else {
      assert data[1..] == [] && data[..0] == [];
    }
  }

  /** The last byte of `data` fills the table: 4094 symbols are taken, and the model starts afresh. */
  predicate Restarts(data: seq<Byte>)
    requires ModelOk(FRESH)
  {
    data != [] && var m := EncoderAfter(FRESH, data[..|data| - 1]); EncodeFrom(m, m.history, data[|data| - 1]).1.used >= 4094
  }

  /** The context for the next byte is the last two bytes, or fewer if there are not two since the table was last started. */
  lemma {:induction false} HistoryExactly(data: seq<Byte>) returns (r: nat)
    ensures ModelOk(FRESH) && r <= |data| && (r == 0 || Restarts(data[..r]))
    ensures forall k :: r < k <= |data| ==> !Restarts(data[..k])
    ensures EncoderAfter(FRESH, data[..r]) == FRESH
    ensures EncoderAfter(FRESH, data).history == data[if |data| - r > 2 then |data| - 2 else r..]
  {
    hide EncodeFrom, EncodeByte, EncoderAfter, Zeros, ModelOk, Restarts;
    FreshOk();
    r := 0;
    if data == [] {
      NothingAfter();
    } else {
      var n := |data| - 1;
      r := HistoryExactly(data[..n]);
      assert data[..n + 1] == data;
      assert forall k :: 0 <= k <= n ==> data[..n][..k] == data[..k];
      AfterOneMore(FRESH, data);
      NextHistory(data);
      if Restarts(data) {
        r := n + 1;
      } else {
        var h := data[..n][if n - r > 2 then n - 2 else r..];
        assert (if |h| >= 2 then h[1..] else h) + [data[n]] == data[if |data| - r > 2 then |data| - 2 else r..];
      }
    }
  }

  lemma {:induction false} NothingAfter()
    ensures ModelOk(FRESH) && EncoderAfter(FRESH, []) == FRESH && FRESH.history == []
  {
    FreshOk();
  }

  lemma {:induction false} NextHistory(data: seq<Byte>)
    requires ModelOk(FRESH) && data != []
    ensures var m, v := EncoderAfter(FRESH, data[..|data| - 1]), data[|data| - 1];
            if Restarts(data) then EncodeByte(m, v).1 == FRESH
            else EncodeByte(m, v).1.history == (if |m.history| >= 2 then m.history[1..] else m.history) + [v]
    ensures FRESH.history == []
  {
    hide EncodeFrom, EncoderAfter, Zeros;
    var m := EncoderAfter(FRESH, data[..|data| - 1]);
    assert ModelOk(m);
  }

  /** The bytes each context knows. */
  function Known(m: Model): set<(Path, nat)>
    requires forall p :: p in m.contexts ==> |m.contexts[p].counts| == 256
  {
    set p, v | p in m.contexts && 0 <= v < 256 && m.contexts[p].counts[v] > 0 :: (p, v)
  }

  ghost predicate Accounted(m: Model) {
    (forall p :: p in m.contexts ==> |m.contexts[p].counts| == 256) && m.used == |Known(m)| + 1
  }

  /** A symbol is taken for each byte that each context knows, and one for the root. */
  lemma {:induction false} SymbolsExactly(data: seq<Byte>)
    ensures ModelOk(FRESH) && Accounted(EncoderAfter(FRESH, data))
    decreases |data|
  {
    hide EncodeFrom, EncoderAfter, Zeros, ModelOk, Accounted, Advance;
    FreshOk();
    if data == [] {
      NothingAfter();
      FreshAccounted();
    } else {
      var n := |data| - 1;
      SymbolsExactly(data[..n]);
      AfterOneMore(FRESH, data);
      var m := EncoderAfter(FRESH, data[..n]);
      assert ContextsOk(m) by { ContextsAre(m); }
      EncodedAccounted(m, m.history, data[n]);
      AdvancedAccounted(EncodeFrom(m, m.history, data[n]).1, data[n]);
    }
  }

  lemma {:induction false} ContextsAre(m: Model)
    requires ModelOk(m)
    ensures ContextsOk(m)
  {
  }

  lemma {:induction false} FreshAccounted()
    ensures Accounted(FRESH)
  {
    assert Known(FRESH) == {};
  }

  lemma {:induction false} AdvancedAccounted(m: Model, v: Byte)
    requires Accounted(m)
    ensures Accounted(Advance(m, v))
  {
    hide Zeros;
    FreshAccounted();
    if m.used < TABLE_SIZE - ORDER { assert Known(Advance(m, v)) == Known(m); }
  }

  lemma {:induction false} EncodedAccounted(m: Model, p: Path, v: Byte)
    requires ContextsOk(m) && Accounted(m)
    ensures Accounted(EncodeFrom(m, p, v).1)
    decreases |p|
  {
    hide Zeros, ContextOk, Observe, Accounted;
    LearnedAccounted(m, p, v);
    LearnOk(m, p, v);
    if p != [] && Ctx(m, p).counts[v] == 0 { EncodedAccounted(LearnAt(m, p, v), p[1..], v); }
  }

  lemma {:induction false} KnownExactly(m: Model, p: Path, v: nat)
    requires forall q :: q in m.contexts ==> |m.contexts[q].counts| == 256
    ensures |Ctx(m, p).counts| == 256 && ((p, v) in Known(m) <==> v < 256 && Ctx(m, p).counts[v] > 0)
  {
  }

  lemma {:induction false} LearnedAccounted(m: Model, p: Path, v: Byte)
    requires ContextsOk(m) && Accounted(m)
    ensures |Ctx(m, p).counts| == 256 && Accounted(LearnAt(m, p, v))
  {
    hide Observe, Known, Zeros, ContextOk;
    assert ContextOk(Ctx(m, p), p);
    ObserveOk(Ctx(m, p), p, v);
    WellSized(Observe(Ctx(m, p), p, v), p);
    KnownExactly(m, p, v);
    var learned := LearnAt(m, p, v);
    forall x: (Path, nat) ensures x in Known(learned) <==> x in Known(m) + {(p, v)} {
      KnownExactly(m, x.0, x.1);
      KnownExactly(learned, x.0, x.1);
    }
    assert Known(learned) == Known(m) + {(p, v)};
  }

  // ---- A stream ----

  /** A context that has learned the byte 97 only. */
  function Only97(n: nat, escapes: nat): (ctx: Context)
    ensures |ctx.counts| == 256
  {
    Context(Zeros(256)[97 := n], escapes)
  }

  lemma {:induction false} Only97Is(n: nat, escapes: nat, root: bool)
    ensures var ctx := Only97(n, escapes);
            && (root ==> SlotOf(ctx, [], 97) == Slot(escapes + 97, n + 1, escapes + n + 256)
                         && SlotOf(ctx, [], 98) == Slot(escapes + 98 + n, 1, escapes + n + 256))
            && (!root ==> Total(ctx, [97]) == escapes + n) && ctx.counts[97] == n && ctx.counts[98] == 0
            && Below(ctx.counts, 256) == n
  {
    var z := Zeros(256);
    BelowZero(z, 97);
    BelowZero(z, 98);
    BelowZero(z, 256);
    BelowUpdate(z, 97, n, 97);
    BelowUpdate(z, 97, n, 98);
    BelowUpdate(z, 97, n, 256);
  }

  lemma {:induction false} Learns97(n: nat, escapes: nat, p: Path)
    requires n <= 100 && escapes <= 100
    ensures Observe(Only97(n, escapes), p, 97) ==
            if p == [] then Only97(n + 3, escapes) else Only97(n + 2, if n == 0 then escapes + 5 else escapes)
  {
    hide Observe, Zeros, Below;
    var m := if p == [] then n + 3 else n + 2;
    Only97Is(n, escapes, p == []);
    Only97Is(m, escapes, p == []);
    HalvedExactly(Only97(n, escapes), p, 97);
    assert Only97(n, escapes).counts[97 := m] == Only97(m, escapes).counts;
  }

  lemma {:induction false} EmptyIs()
    ensures Empty() == Only97(0, 0) && Ctx(FRESH, []) == Only97(0, 1)
  {
    assert Zeros(256)[97 := 0] == Zeros(256);
  }

  /** A context that is passed on the way down. */
  lemma {:induction false} Passes(m: Model, p: Path, v: Byte, escapes: seq<Slot>, rest: seq<Slot>, next: Model)
    requires ContextsOk(m) && p != [] && |Ctx(m, p).counts| == 256 && Ctx(m, p).counts[v] == 0
    requires ContextOk(Ctx(m, p), p) && EscapeSlots(Ctx(m, p), p) == escapes && ContextsOk(LearnAt(m, p, v))
    requires EncodeFrom(LearnAt(m, p, v), p[1..], v) == (rest, next)
    ensures EncodeFrom(m, p, v) == (escapes + rest, next)
  {
    hide Observe, Total, ContextOk, Zeros;
  }

  /** What the model is like after some bytes. */
  ghost predicate Looks(m: Model, root: Context, sub: Context, used: nat, history: Path) {
    && ModelOk(m) && Ctx(m, []) == root && Ctx(m, [97]) == sub && Ctx(m, [97, 97]) == Empty()
    && m.used == used && m.history == history
  }

  lemma {:induction false} First97()
    ensures ModelOk(FRESH)
    ensures var r := EncodeByte(FRESH, 97);
            r.0 == [Slot(98, 1, 257)] && Looks(r.1, Only97(3, 1), Only97(0, 0), 2, [97])
  {
    hide Observe, Zeros, SlotOf, ContextOk, Only97;
    FreshOk();
    EmptyIs();
    Only97Is(0, 1, true);
    Learns97(0, 1, []);
    LearnOk(FRESH, [], 97);
  }

  lemma {:induction false} Second97(m: Model)
    requires Looks(m, Only97(3, 1), Only97(0, 0), 2, [97])
    ensures var r := EncodeByte(m, 97);
            r.0 == [Slot(98, 4, 260)] && Looks(r.1, Only97(6, 1), Only97(2, 5), 3, [97, 97])
  {
    hide Observe, Zeros, SlotOf, ContextOk, Only97, EncodeFrom;
    EmptyIs();
    Only97Is(0, 0, false);
    Only97Is(3, 1, true);
    Learns97(0, 0, [97]);
    Learns97(3, 1, []);
    assert ContextOk(Ctx(m, [97]), [97]);
    LearnOk(m, [97], 97);
    var n := LearnAt(m, [97], 97);
    LearnOk(n, [], 97);
    EncodeRoot(n, 97);
    assert [97][1..] == [];
    Passes(m, [97], 97, [], [Slot(98, 4, 260)], LearnAt(n, [], 97));
  }

  lemma {:induction false} EncodeRoot(m: Model, v: Byte)
    requires ContextsOk(m) && |Ctx(m, []).counts| == 256
    ensures EncodeFrom(m, [], v) == ([SlotOf(Ctx(m, []), [], v)], LearnAt(m, [], v))
  {
    hide Observe, ContextOk, SlotOf;
  }

  lemma {:induction false} Then98(m: Model)
    requires Looks(m, Only97(6, 1), Only97(2, 5), 3, [97, 97])
    ensures EncodeByte(m, 98).0 == [Slot(0, 5, 7), Slot(105, 1, 263)]
  {
    hide Observe, Zeros, SlotOf, ContextOk, Only97, EncodeFrom;
    EmptyIs();
    Only97Is(0, 0, false);
    Only97Is(2, 5, false);
    Only97Is(6, 1, true);
    assert ContextOk(Ctx(m, [97, 97]), [97, 97]);
    LearnOk(m, [97, 97], 98);
    var n := LearnAt(m, [97, 97], 98);
    assert ContextOk(Ctx(n, [97]), [97]);
    LearnOk(n, [97], 98);
    var o := LearnAt(n, [97], 98);
    LearnOk(o, [], 98);
    EncodeRoot(o, 98);
    assert [97][1..] == [] && [97, 97][1..] == [97];
    Passes(n, [97], 98, [Slot(0, 5, 7)], [Slot(105, 1, 263)], LearnAt(o, [], 98));
    assert [Slot(0, 5, 7)] + [Slot(105, 1, 263)] == [Slot(0, 5, 7), Slot(105, 1, 263)];
    Passes(m, [97, 97], 98, [], [Slot(0, 5, 7), Slot(105, 1, 263)], LearnAt(o, [], 98));
  }

  /** By hand from the macros of the source: the slots of "aab", and the bytes they give. */
  lemma {:induction false} SlotsOfAab()
    ensures ModelOk(FRESH)
    ensures Slots(FRESH, [97, 97, 98]) == [Slot(98, 1, 257), Slot(98, 4, 260), Slot(0, 5, 7), Slot(105, 1, 263)]
  {
    hide EncodeByte, Looks, Zeros;
    First97();
    var a := EncodeByte(FRESH, 97);
    assert Looks(a.1, Only97(3, 1), Only97(0, 0), 2, [97]);
    Second97(a.1);
    var b := EncodeByte(a.1, 97);
    Then98(b.1);
    assert [97, 97, 98][1..] == [97, 98] && [97, 98][1..] == [98] && [98][1..] == [];
    assert Slots(b.1, [98]) == [Slot(0, 5, 7), Slot(105, 1, 263)];
    assert Slots(a.1, [97, 98]) == [Slot(98, 4, 260)] + [Slot(0, 5, 7), Slot(105, 1, 263)];
  }

  lemma {:induction false} StreamOfAab()
    ensures var slots := [Slot(98, 1, 257), Slot(98, 4, 260), Slot(0, 5, 7), Slot(105, 1, 263)];
            SlotsOk(slots) && Stream(INITIAL, slots) == [97, 255, 157, 144]
  {
    hide Normalize, Flush;
    var c1 := Coder(1637769630, 16711935);
    var c2 := Coder(1644068678, 257104);
    var c3 := Coder(1644068678, 183645);
    var c4 := Coder(2643460096, 45744128);
    Stays(c1);
    Stays(c2);
    Stays(c3);
    Shifts();
    Flushes();
    assert Encode(INITIAL, Slot(98, 1, 257)) == ([], c1);
    assert Encode(c1, Slot(98, 4, 260)) == ([], c2);
    assert Encode(c2, Slot(0, 5, 7)) == ([], c3);
    assert Encode(c3, Slot(105, 1, 263)) == ([97, 255], c4);
    assert Stream(c4, []) == [157, 144];
    assert Stream(c3, [Slot(105, 1, 263)]) == [97, 255] + [157, 144];
    assert Stream(c2, [Slot(0, 5, 7), Slot(105, 1, 263)]) == [] + [97, 255, 157, 144];
  }

  lemma {:induction false} Stays(c: Coder)
    requires Interval(c) && Settled(c)
    ensures Normalize(c) == ([], c)
  {
  }

  lemma {:induction false} Shifts()
    ensures Interval(Coder(1644141968, 698)) && Normalize(Coder(1644141968, 698)) == ([97, 255], Coder(2643460096, 45744128))
  {
    var c, d, e := Coder(1644141968, 698), Coder(4288516096, 178688), Coder(2643460096, 45744128);
    assert Interval(c) && Interval(d) && Interval(e);
    assert Shift(c) == d && Shift(d) == e && Settled(e) && !Settled(d) && !Settled(c);
    Stays(e);
    assert c.low / TOP == 97 && d.low / TOP == 255;
    assert Normalize(d) == ([255] + Normalize(e).0, e) && [255] + Normalize(e).0 == [255];
    assert Normalize(c) == ([97] + Normalize(d).0, e) && [97] + Normalize(d).0 == [97, 255];
  }

  lemma {:induction false} Flushes()
    ensures Flush(2643460096) == [157, 144]
  {
    assert 2643460096 / TOP == 157 && 2643460096 * 256 % WORD == 2415919104;
    assert 2415919104 / TOP == 144 && 2415919104 * 256 % WORD == 0;
    assert Flush(0) == [];
    assert Flush(2415919104) == [144];
  }

  lemma {:induction false} CompressedAab()
    ensures Compressed([97, 97, 98]) == [97, 255, 157, 144]
  {
    hide Stream, Slots, Zeros;
    SlotsOfAab();
    StreamOfAab();
  }
}
