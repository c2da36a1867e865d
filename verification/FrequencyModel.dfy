/** The adaptive order-2 model of src/compress.c, without its symbol table.

  A context is named by the path of bytes that leads to it: [] is the root, [a] follows byte a,
  [a, b] follows a then b. Encoder and decoder both drive this one model; the table of symbols
  with its binary trees and parent links is shown elsewhere to represent it.
 */
module FrequencyModel {
  import opened Carryless

  type Path = seq<Byte>

  const ESCAPE_MINIMUM := 1
  const ESCAPE_DELTA := 5
  const ORDER := 2
  const TABLE_SIZE := 4096
  const TOTAL_LIMIT := BOTTOM - 0x100

  /** Per byte value the count gathered so far, 0 where the context has no symbol for it. */
  datatype Context = Context(counts: seq<nat>, escapes: nat)

  const NO_COUNTS: seq<nat> := Zeros(256)

  function Zeros(n: nat): (r: seq<nat>)
    ensures |r| == n && forall i :: 0 <= i < n ==> r[i] == 0
  {
    if n == 0 then [] else Zeros(n - 1) + [0]
  }

  /** `ENET_SUBCONTEXT_SYMBOL_DELTA` or, at the root, `ENET_CONTEXT_SYMBOL_DELTA`. */
  function Delta(p: Path): nat { if p == [] then 3 else 2 }

  /** The count every byte has before it was ever seen: one at the root, none elsewhere. */
  function Minimum(p: Path): nat { if p == [] then 1 else 0 }

  /** The sum of the counts of all byte values less than v. */
  function Below(counts: seq<nat>, v: nat): nat
    requires v <= |counts|
  {
    if v == 0 then 0 else Below(counts, v - 1) + counts[v - 1]
  }

  function Total(ctx: Context, p: Path): nat
    requires |ctx.counts| == 256
  {
    ctx.escapes + Below(ctx.counts, 256) + 256 * Minimum(p)
  }

  function Halve(n: nat): nat { n - n / 2 }

  function Rescaled(ctx: Context): Context {
    Context(seq(|ctx.counts|, i requires 0 <= i < |ctx.counts| => Halve(ctx.counts[i])), Halve(ctx.escapes))
  }

  /** The context after byte v was coded in it, or added to it. */
  function Bumped(ctx: Context, p: Path, v: Byte): Context
    requires |ctx.counts| == 256
  {
    Context(ctx.counts[v := ctx.counts[v] + Delta(p)],
            if ctx.counts[v] + Minimum(p) == 0 then ctx.escapes + ESCAPE_DELTA else ctx.escapes)
  }

  /** The rescaling test; `count` is the one from before the bump. */
  predicate NeedsRescale(ctx: Context, p: Path, count: nat)
    requires |ctx.counts| == 256
  {
    count > 0xFF - 2 * Delta(p) + Minimum(p) || Total(ctx, p) > TOTAL_LIMIT
  }

  function Observe(ctx: Context, p: Path, v: Byte): Context
    requires |ctx.counts| == 256
  {
    var bumped := Bumped(ctx, p, v);
    if NeedsRescale(bumped, p, ctx.counts[v] + Minimum(p)) then Rescaled(bumped) else bumped
  }

  /** The slot of byte v among the `Total` parts: first the escapes, then the values in order. */
  function SlotOf(ctx: Context, p: Path, v: Byte): Slot
    requires |ctx.counts| == 256
  {
    Slot(ctx.escapes + v * Minimum(p) + Below(ctx.counts, v), ctx.counts[v] + Minimum(p), Total(ctx, p))
  }

  /** The value whose slot holds part `code`, counting from the end of the escapes. */
  function ValueAt(ctx: Context, p: Path, code: nat, v: Byte): Byte
    requires |ctx.counts| == 256
    decreases 256 - v
  {
    if v == 255 || code < (v + 1) * Minimum(p) + Below(ctx.counts, v + 1) then v else ValueAt(ctx, p, code, v + 1)
  }

  /** Counts stay within 8 bits, totals within 16, and escapes are zero only in an empty context. */
  ghost predicate ContextOk(ctx: Context, p: Path) {
    && |ctx.counts| == 256
    && (forall v :: 0 <= v < 256 ==> ctx.counts[v] + Delta(p) <= 0xFF)
    && Total(ctx, p) <= TOTAL_LIMIT
    && (p == [] ==> 0 < ctx.escapes)
    && (p != [] ==> (ctx.escapes == 0 <==> forall v :: 0 <= v < 256 ==> ctx.counts[v] == 0))
  }

  // ---- Sums ----

  lemma {:induction false} BelowGrows(counts: seq<nat>, v: nat, w: nat)
    requires v <= w <= |counts|
    ensures Below(counts, v) <= Below(counts, w)
    ensures v < w ==> Below(counts, v) + counts[v] <= Below(counts, w)
    decreases w
  {
    if v < w {
      BelowGrows(counts, v, w - 1);
    }
  }

  lemma {:induction false} BelowUpdate(counts: seq<nat>, x: nat, n: nat, w: nat)
    requires x < |counts| && w <= |counts|
    ensures Below(counts[x := n], w) == Below(counts, w) + if x < w then n - counts[x] else 0
  {
    if w != 0 {
      BelowUpdate(counts, x, n, w - 1);
    }
  }

  lemma {:induction false} BelowHalved(ctx: Context, w: nat)
    requires w <= |ctx.counts|
    ensures 2 * Below(Rescaled(ctx).counts, w) <= Below(ctx.counts, w) + w
    ensures Below(Rescaled(ctx).counts, w) == 0 <==> Below(ctx.counts, w) == 0
  {
    if w != 0 {
      BelowHalved(ctx, w - 1);
    }
  }

  lemma {:induction false} BelowZero(counts: seq<nat>, w: nat)
    requires w <= |counts|
    ensures Below(counts, w) == 0 <==> forall v :: 0 <= v < w ==> counts[v] == 0
  {
    if w != 0 {
      BelowZero(counts, w - 1);
    }
  }

  // ---- Contexts ----

  /** Learning a byte keeps every count within 8 bits and every total within 16. */
  lemma {:induction false} ObserveOk(ctx: Context, p: Path, v: Byte)
    requires ContextOk(ctx, p)
    ensures ContextOk(Observe(ctx, p, v), p)
    ensures Bumped(ctx, p, v).counts[v] <= 0xFF && Total(Bumped(ctx, p, v), p) < BOTTOM
    ensures forall w :: 0 <= w < 256 ==> (Observe(ctx, p, v).counts[w] > 0 <==> w == v || ctx.counts[w] > 0)
  {
    var bumped := Bumped(ctx, p, v);
    BelowUpdate(ctx.counts, v, ctx.counts[v] + Delta(p), 256);
    BelowHalved(bumped, 256);
    assert bumped.counts[v] > 0;
    if NeedsRescale(bumped, p, ctx.counts[v] + Minimum(p)) {
      assert Observe(ctx, p, v).counts[v] > 0;
    }
  }

  /** A byte that may be coded in a context has a proper slot there, clear of the escapes. */
  lemma {:induction false} SlotOfOk(ctx: Context, p: Path, v: Byte)
    requires ContextOk(ctx, p) && (p == [] || ctx.counts[v] > 0)
    ensures SlotOk(SlotOf(ctx, p, v)) && ctx.escapes <= SlotOf(ctx, p, v).under
  {
    BelowGrows(ctx.counts, v, 256);
  }

  lemma {:induction false} EscapeSlotOk(ctx: Context, p: Path)
    requires ContextOk(ctx, p) && 0 < ctx.escapes
    ensures ctx.escapes < Total(ctx, p) && SlotOk(Slot(0, ctx.escapes, Total(ctx, p)))
  {
    BelowZero(ctx.counts, 256);
  }

  /** Slots do not overlap: a part of the slot of v is looked up as v. */
  lemma {:induction false} ValueAtSlot(ctx: Context, p: Path, code: nat, v: Byte, from: Byte)
    requires |ctx.counts| == 256 && from <= v
    requires v * Minimum(p) + Below(ctx.counts, v) <= code < (v + 1) * Minimum(p) + Below(ctx.counts, v + 1)
    ensures ValueAt(ctx, p, code, from) == v
    decreases v - from
  {
    if from < v {
      BelowGrows(ctx.counts, from + 1, v);
      ValueAtSlot(ctx, p, code, v, from + 1);
    }
  }

  /** Every part past the escapes lies in the slot of the value found for it. */
  lemma {:induction false} ValueAtFinds(ctx: Context, p: Path, code: nat, from: Byte)
    requires |ctx.counts| == 256
    requires from * Minimum(p) + Below(ctx.counts, from) <= code < 256 * Minimum(p) + Below(ctx.counts, 256)
    ensures var v := ValueAt(ctx, p, code, from);
            v * Minimum(p) + Below(ctx.counts, v) <= code < (v + 1) * Minimum(p) + Below(ctx.counts, v + 1)
    decreases 256 - from
  {
    if from < 255 && code >= (from + 1) * Minimum(p) + Below(ctx.counts, from + 1) {
      ValueAtFinds(ctx, p, code, from + 1);
    }
  }
}
