/** How the symbol table of src/compress.c represents the abstract model.

  Encoder and decoder fill their tables in different orders, so the tables differ; both represent
  the same model, each under a layout of its own that says which symbol stands for which path.
 */
module SymbolTable {
  import opened Carryless
  import opened FrequencyModel
  import opened Ppm
  import opened SymbolTree

  /** The symbol of every path, and the tree of the context that symbol is. */
  datatype Layout = Layout(index: map<Path, nat>, trees: map<Path, Tree>)

  const FRESH_LAYOUT := Layout(map[[] := 0], map[[] := Nil])

  /** `ENET_CONTEXT_CREATE` for the root. */
  const ROOT := Symbol(0, 0, 0, 0, 0, 0, ESCAPE_MINIMUM, ESCAPE_MINIMUM + 256, 0)

  datatype Option<+T> = None | Some(value: T)

  function Front(p: Path): Path
    requires p != []
  {
    p[..|p| - 1]
  }

  /** Symbol i, as a context, holds ctx, with the counts in tree t. */
  ghost predicate ContextRep(s: seq<Symbol>, i: nat, t: Tree, ctx: Context, p: Path) {
    && i < |s| && Hangs(s, i, s[i].symbols, t) && Ordered(t, 0, 256) && Descending(t)
    && (forall j :: j in Nodes(t) ==> i < j)
    && |ctx.counts| == 256 && s[i].escapes == ctx.escapes && s[i].total == Total(ctx, p)
    && forall v :: 0 <= v < 256 ==> CountIn(t, v) == ctx.counts[v]
  }

  /** The symbols of context p are those of the paths one byte longer. */
  ghost predicate Placed(L: Layout, p: Path, t: Tree) {
    forall v: Byte :: (p + [v] in L.index <==> CountIn(t, v) > 0) && (CountIn(t, v) > 0 ==> L.index[p + [v]] == Find(t, v))
  }

  /** The parent of a symbol is the symbol of the same value in the next shorter context. */
  ghost predicate Linked(s: seq<Symbol>, L: Layout, p: Path)
    requires p in L.index
  {
    p != [] ==> p[1..] in L.index && L.index[p] < |s| && s[L.index[p]].parent == L.index[p[1..]]
  }

  ghost predicate Indexed(L: Layout, next: nat) {
    && [] in L.index && L.index[[]] == 0 && L.trees.Keys == L.index.Keys
    && (forall p :: p in L.index ==> |p| <= ORDER + 1 && L.index[p] < next)
    && (forall p :: p in L.index ==> p == [] || Front(p) in L.index)
    && (forall p, q :: p in L.index && q in L.index && L.index[p] == L.index[q] ==> p == q)
  }

  ghost predicate ContextsRep(s: seq<Symbol>, L: Layout, m: Model) {
    L.trees.Keys == L.index.Keys && forall p :: p in L.index ==> ContextRep(s, L.index[p], L.trees[p], Ctx(m, p), p)
  }

  ghost predicate AllPlaced(L: Layout) {
    L.trees.Keys == L.index.Keys && forall p :: p in L.index ==> Placed(L, p, L.trees[p])
  }

  ghost predicate AllLinked(s: seq<Symbol>, L: Layout, open: Option<Path>) {
    forall p :: p in L.index && open != Some(p) ==> Linked(s, L, p)
  }

  /** The first `next` symbols represent m under L. The parent of the symbol of `open` may be still unset. */
  ghost predicate Table(s: seq<Symbol>, next: nat, L: Layout, m: Model, open: Option<Path>) {
    && |s| == TABLE_SIZE && 0 < next <= TABLE_SIZE && next == m.used && L.trees.Keys == L.index.Keys
    && Indexed(L, next) && ContextsRep(s, L, m) && AllPlaced(L) && AllLinked(s, L, open)
    && m.contexts.Keys <= L.index.Keys
  }

  lemma {:induction false} FreshTable(s: seq<Symbol>)
    requires |s| == TABLE_SIZE && s[0] == ROOT
    ensures Table(s, 1, FRESH_LAYOUT, FRESH, None)
  {
    assert ContextRep(s, 0, Nil, Ctx(FRESH, []), []) by {
      BelowZero(NO_COUNTS, 256);
      NilIsEmpty();
    }
    assert Placed(FRESH_LAYOUT, [], Nil);
    hide Ordered, Descending, Nodes, Below, ContextRep, CountIn, Placed;
  }

  lemma {:induction false} NilIsEmpty()
    ensures Ordered(Nil, 0, 256) && Descending(Nil) && Nodes(Nil) == {}
    ensures forall v :: CountIn(Nil, v) == 0
  {
  }

  lemma {:induction false} NodesAreFound(t: Tree, lo: nat, hi: nat, j: nat) returns (v: Byte)
    requires Ordered(t, lo, hi) && j in Nodes(t)
    ensures lo <= v < hi && CountIn(t, v) > 0 && Find(t, v) == j
  {
    if j in Nodes(t.left) {
      v := NodesAreFound(t.left, lo, t.value, j);
    } else if j in Nodes(t.right) {
      v := NodesAreFound(t.right, t.value + 1, hi, j);
    } else {
      v := t.value;
    }
  }

  lemma {:induction false} NodeHasPath(s: seq<Symbol>, L: Layout, m: Model, p: Path, j: nat) returns (v: Byte)
    requires ContextsRep(s, L, m) && AllPlaced(L) && p in L.index && j in Nodes(L.trees[p])
    ensures p + [v] in L.index && L.index[p + [v]] == j
  {
    hide Nodes, CountIn, Descending, Hangs, Total;
    assert ContextRep(s, L.index[p], L.trees[p], Ctx(m, p), p);
    v := NodesAreFound(L.trees[p], 0, 256, j);
    assert Placed(L, p, L.trees[p]);
  }

  /** Different contexts have different symbols in their trees, all of them below `next`. */
  lemma {:induction false} TreesApart(s: seq<Symbol>, next: nat, L: Layout, m: Model, p: Path, q: Path)
    requires ContextsRep(s, L, m) && AllPlaced(L) && Indexed(L, next) && p in L.index && q in L.index
    ensures forall j :: j in Nodes(L.trees[p]) ==> 0 < j < next
    ensures q != p ==> Nodes(L.trees[p]) !! Nodes(L.trees[q])
  {
    hide ContextsRep, AllPlaced, Nodes;
    forall j | j in Nodes(L.trees[p])
      ensures 0 < j < next && (q != p ==> j !in Nodes(L.trees[q]))
    {
      var v := NodeHasPath(s, L, m, p, j);
      if j in Nodes(L.trees[q]) {
        var w := NodeHasPath(s, L, m, q, j);
        PathsDiffer(p, v, q, w);
      }
    }
  }

  lemma {:induction false} PathsDiffer(p: Path, v: Byte, q: Path, w: Byte)
    ensures p + [v] == q + [w] <==> p == q && v == w
    ensures Front(p + [v]) == p
  {
    assert (p + [v])[..|p|] == p && (q + [w])[..|q|] == q;
    assert (p + [v])[|p|] == v && (q + [w])[|q|] == w;
  }

  // ---- Learning a byte at a context ----

  function Grown(L: Layout, p: Path, v: Byte, t: Tree, symbol: nat): Layout {
    if p + [v] in L.index then L.(trees := L.trees[p := t])
    else Layout(L.index[p + [v] := symbol], L.trees[p := t][p + [v] := Nil])
  }

  /** The tree of context p became t: v was added, or its count changed, and nothing moved. */
  ghost predicate TreeStep(L: Layout, next: nat, p: Path, v: Byte, t: Tree, symbol: nat)
    requires p in L.index && p in L.trees
  {
    && symbol == (if p + [v] in L.index then L.index[p + [v]] else next)
    && Nodes(t) == Nodes(L.trees[p]) + (if p + [v] in L.index then {} else {next})
    && (forall w: Byte :: CountIn(t, w) > 0 <==> w == v || CountIn(L.trees[p], w) > 0)
    && CountIn(t, v) > 0 && Find(t, v) == symbol
    && (forall w: Byte :: CountIn(t, w) > 0 && w != v ==> CountIn(L.trees[p], w) > 0 && Find(t, w) == Find(L.trees[p], w))
  }

  /** Apart from context i and a created symbol, contexts are as they were. */
  ghost predicate RoleStep(s: seq<Symbol>, s': seq<Symbol>, i: nat, created: set<nat>) {
    && |s'| == |s|
    && (forall j :: 0 <= j < |s| && j != i && j !in created ==>
          s'[j].symbols == s[j].symbols && s'[j].escapes == s[j].escapes && s'[j].total == s[j].total)
    && (forall j :: 0 <= j < |s| && j in created ==> s'[j].symbols == 0 && s'[j].escapes == 0 && s'[j].total == 0)
  }

  /** Apart from the given nodes, the nodes of trees are as they were. */
  ghost predicate NodeStep(s: seq<Symbol>, s': seq<Symbol>, nodes: set<nat>) {
    |s'| == |s| && forall j :: 0 <= j < |s| && j !in nodes ==> SameNode(s[j], s'[j])
  }

  /** Apart from the symbol that waited for it, and a created one, parents are as they were. */
  ghost predicate ParentStep(s: seq<Symbol>, s': seq<Symbol>, waiting: int, parent: nat, created: set<nat>) {
    && |s'| == |s|
    && (forall j :: 0 <= j < |s| && j != waiting && j !in created ==> s'[j].parent == s[j].parent)
    && (forall j :: 0 <= j < |s| && j in created && j != waiting ==> s'[j].parent == 0)
    && (0 <= waiting < |s| ==> s'[waiting].parent == parent)
  }

  ghost function Created(L: Layout, next: nat, p: Path, v: Byte): set<nat> {
    if p + [v] in L.index then {} else {next}
  }

  ghost function Waiting(L: Layout, open: Option<Path>): int {
    if open.Some? && open.value in L.index then L.index[open.value] else -1
  }

  /** The path whose symbol still waits for its parent after v was learned at p. */
  function OpenAfter(L: Layout, p: Path, v: Byte): Option<Path> {
    if p == [] || p + [v] in L.index then None else Some(p + [v])
  }

  /** What the open path waits for is the symbol about to be reached. */
  ghost predicate Awaits(L: Layout, open: Option<Path>, p: Path, v: Byte) {
    open.Some? ==> open.value in L.index && open.value != [] && open.value[1..] == p + [v]
  }

  /** What happened to the table when v was learned at context p, whose tree became t, and the symbol of
      `open`, if any, got its parent. */
  ghost predicate LearnStep(s: seq<Symbol>, s': seq<Symbol>, next: nat, L: Layout, m: Model, open: Option<Path>,
                            p: Path, v: Byte, t: Tree, symbol: nat)
    requires p in L.index && p in L.trees && |Ctx(m, p).counts| == 256
  {
    && |s'| == |s| && ContextRep(s', L.index[p], t, Observe(Ctx(m, p), p, v), p)
    && TreeStep(L, next, p, v, t, symbol)
    && RoleStep(s, s', L.index[p], Created(L, next, p, v))
    && NodeStep(s, s', Nodes(t))
    && ParentStep(s, s', Waiting(L, open), symbol, Created(L, next, p, v))
    && Awaits(L, open, p, v)
  }

  lemma {:induction false} GrownIndexed(L: Layout, next: nat, p: Path, v: Byte, t: Tree, symbol: nat)
    requires Indexed(L, next) && p in L.index && |p| <= ORDER
    requires p + [v] !in L.index ==> symbol == next
    ensures Indexed(Grown(L, p, v, t, symbol), if p + [v] in L.index then next else next + 1)
  {
    PathsDiffer(p, v, p, v);
  }

  lemma {:induction false} GrownContext(s: seq<Symbol>, s': seq<Symbol>, next: nat, L: Layout, m: Model, p: Path, v: Byte, t: Tree, symbol: nat, q: Path)
    requires ContextsRep(s, L, m) && AllPlaced(L) && Indexed(L, next) && p in L.index && q in L.index && q != p
    requires TreeStep(L, next, p, v, t, symbol) && next < |s| && |s'| == |s|
    requires RoleStep(s, s', L.index[p], Created(L, next, p, v)) && NodeStep(s, s', Nodes(t))
    ensures ContextRep(s', L.index[q], L.trees[q], Ctx(m, q), q)
  {
    hide Ordered, Descending, Nodes, CountIn, Total, AllPlaced, ContextsRep, Indexed, RoleStep, NodeStep, TreeStep;
    var i := L.index[q];
    IndexOf(L, next, q, p);
    ContextOf(s, L, m, q);
    RoleOf(s, s', L.index[p], Created(L, next, p, v), i);
    assert Nodes(L.trees[q]) !! Nodes(t) by { NewTreeApart(s, next, L, m, p, v, t, symbol, q); }
    if s[i].symbols != 0 {
      assert Represents(s', i + s[i].symbols, L.trees[q]) by {
        NodesKept(s, s', Nodes(t), i + s[i].symbols, L.trees[q]);
      }
    }
  }

  lemma {:induction false} NewTreeApart(s: seq<Symbol>, next: nat, L: Layout, m: Model, p: Path, v: Byte, t: Tree, symbol: nat, q: Path)
    requires ContextsRep(s, L, m) && AllPlaced(L) && Indexed(L, next) && p in L.index && q in L.index && q != p
    requires TreeStep(L, next, p, v, t, symbol)
    ensures Nodes(L.trees[q]) !! Nodes(t)
  {
    hide Nodes, AllPlaced, ContextsRep;
    TreesApart(s, next, L, m, p, q);
    TreesApart(s, next, L, m, q, p);
  }

  lemma {:induction false} RoleOf(s: seq<Symbol>, s': seq<Symbol>, i: nat, created: set<nat>, j: nat)
    requires RoleStep(s, s', i, created) && j < |s| && j != i
    ensures j < |s'|
    ensures if j in created then s'[j].symbols == 0 && s'[j].escapes == 0 && s'[j].total == 0
            else s'[j].symbols == s[j].symbols && s'[j].escapes == s[j].escapes && s'[j].total == s[j].total
  {
  }

  lemma {:induction false} NodesKept(s: seq<Symbol>, s': seq<Symbol>, nodes: set<nat>, i: nat, t: Tree)
    requires NodeStep(s, s', nodes) && Represents(s, i, t) && Nodes(t) !! nodes
    ensures Represents(s', i, t)
  {
    hide Nodes;
    RepresentsFrame(s, s', i, t);
  }

  lemma {:induction false} ContextOf(s: seq<Symbol>, L: Layout, m: Model, p: Path)
    requires ContextsRep(s, L, m) && p in L.index
    ensures p in L.trees && ContextRep(s, L.index[p], L.trees[p], Ctx(m, p), p)
  {
  }

  lemma {:induction false} PlacedAt(L: Layout, q: Path, w: Byte)
    requires AllPlaced(L) && q in L.index
    ensures q in L.trees && (q + [w] in L.index <==> CountIn(L.trees[q], w) > 0)
    ensures CountIn(L.trees[q], w) > 0 ==> L.index[q + [w]] == Find(L.trees[q], w)
  {
    assert Placed(L, q, L.trees[q]);
  }

  lemma {:induction false} GrownPlaced(L: Layout, next: nat, p: Path, v: Byte, t: Tree, symbol: nat)
    requires Indexed(L, next) && AllPlaced(L) && p in L.index && TreeStep(L, next, p, v, t, symbol)
    ensures AllPlaced(Grown(L, p, v, t, symbol))
  {
    hide CountIn, Find, AllPlaced, Nodes;
    var L' := Grown(L, p, v, t, symbol);
    forall q | q in L'.index ensures Placed(L', q, L'.trees[q]) {
      forall w: Byte
        ensures (q + [w] in L'.index <==> CountIn(L'.trees[q], w) > 0) && (CountIn(L'.trees[q], w) > 0 ==> L'.index[q + [w]] == Find(L'.trees[q], w))
      {
        GrownPlacedAt(L, next, p, v, t, symbol, q, w);
      }
    }
    assert AllPlaced(L') by { PlacedEverywhere(L'); }
  }

  lemma {:induction false} PlacedEverywhere(L: Layout)
    requires L.trees.Keys == L.index.Keys && forall q :: q in L.index ==> Placed(L, q, L.trees[q])
    ensures AllPlaced(L)
  {
  }

  lemma {:induction false} GrownPlacedAt(L: Layout, next: nat, p: Path, v: Byte, t: Tree, symbol: nat, q: Path, w: Byte)
    requires Indexed(L, next) && AllPlaced(L) && p in L.index && TreeStep(L, next, p, v, t, symbol)
    requires q in Grown(L, p, v, t, symbol).index
    ensures var L' := Grown(L, p, v, t, symbol);
            (q + [w] in L'.index <==> CountIn(L'.trees[q], w) > 0) && (CountIn(L'.trees[q], w) > 0 ==> L'.index[q + [w]] == Find(L'.trees[q], w))
  {
    hide AllPlaced, Nodes, Find;
    PathsDiffer(p, v, q, w);
    PathsDiffer(q, w, p, v);
    if q in L.index {
      PlacedAt(L, q, w);
    } else {
      assert q == p + [v] && q + [w] !in L.index;
    }
  }

  lemma {:induction false} GrownLinked(s: seq<Symbol>, s': seq<Symbol>, next: nat, L: Layout, open: Option<Path>, p: Path, v: Byte, t: Tree, symbol: nat)
    requires Indexed(L, next) && AllLinked(s, L, open) && p in L.index && next < |s|
    requires symbol == if p + [v] in L.index then L.index[p + [v]] else next
    requires ParentStep(s, s', Waiting(L, open), symbol, Created(L, next, p, v)) && Awaits(L, open, p, v)
    ensures AllLinked(s', Grown(L, p, v, t, symbol), OpenAfter(L, p, v))
  {
    hide AllLinked;
    var L' := Grown(L, p, v, t, symbol);
    forall q | q in L'.index && OpenAfter(L, p, v) != Some(q) ensures Linked(s', L', q) {
      GrownLinkedAt(s, s', next, L, open, p, v, t, symbol, q);
    }
    assert AllLinked(s', L', OpenAfter(L, p, v)) by { LinkedEverywhere(s', L', OpenAfter(L, p, v)); }
  }

  lemma {:induction false} LinkedEverywhere(s: seq<Symbol>, L: Layout, open: Option<Path>)
    requires forall q :: q in L.index && open != Some(q) ==> Linked(s, L, q)
    ensures AllLinked(s, L, open)
  {
  }

  lemma {:induction false} GrownLinkedAt(s: seq<Symbol>, s': seq<Symbol>, next: nat, L: Layout, open: Option<Path>, p: Path, v: Byte, t: Tree, symbol: nat, q: Path)
    requires Indexed(L, next) && AllLinked(s, L, open) && p in L.index && next < |s|
    requires symbol == if p + [v] in L.index then L.index[p + [v]] else next
    requires ParentStep(s, s', Waiting(L, open), symbol, Created(L, next, p, v)) && Awaits(L, open, p, v)
    requires q in Grown(L, p, v, t, symbol).index && OpenAfter(L, p, v) != Some(q)
    ensures Linked(s', Grown(L, p, v, t, symbol), q)
  {
    hide Indexed, AllLinked, ParentStep;
    var waiting, created := Waiting(L, open), Created(L, next, p, v);
    if open.Some? {
      IndexOf(L, next, open.value, open.value);
    }
    if q !in L.index {
      assert q == [v] && q[1..] == [];
      RootIndex(L, next);
      ParentOf(s, s', waiting, symbol, created, next);
    } else {
      IndexOf(L, next, q, if open.Some? then open.value else q);
      ParentOf(s, s', waiting, symbol, created, L.index[q]);
      if open != Some(q) {
        LinkOf(s, L, open, q);
      }
    }
  }

  lemma {:induction false} RootIndex(L: Layout, next: nat)
    requires Indexed(L, next)
    ensures [] in L.index && L.index[[]] == 0
  {
  }

  lemma {:induction false} IndexOf(L: Layout, next: nat, p: Path, q: Path)
    requires Indexed(L, next) && p in L.index && q in L.index
    ensures L.index[p] < next && (p != q ==> L.index[p] != L.index[q])
  {
  }

  lemma {:induction false} LinkOf(s: seq<Symbol>, L: Layout, open: Option<Path>, q: Path)
    requires AllLinked(s, L, open) && q in L.index && open != Some(q)
    ensures Linked(s, L, q)
  {
  }

  lemma {:induction false} ParentOf(s: seq<Symbol>, s': seq<Symbol>, waiting: int, parent: nat, created: set<nat>, j: nat)
    requires ParentStep(s, s', waiting, parent, created) && j < |s|
    ensures j < |s'| && s'[j].parent == if j == waiting then parent else if j in created then 0 else s[j].parent
  {
  }

  /** Learning a byte, step by step in the table, is learning it in the model. */
  lemma {:induction false} LearnTable(s: seq<Symbol>, s': seq<Symbol>, next: nat, L: Layout, m: Model, open: Option<Path>,
                   p: Path, v: Byte, t: Tree, symbol: nat)
    requires Table(s, next, L, m, open) && p in L.index && |p| <= ORDER && next < TABLE_SIZE
    requires |Ctx(m, p).counts| == 256 && LearnStep(s, s', next, L, m, open, p, v, t, symbol)
    ensures var next' := if p + [v] in L.index then next else next + 1;
            Table(s', next', Grown(L, p, v, t, symbol), LearnAt(m, p, v), OpenAfter(L, p, v))
    ensures Grown(L, p, v, t, symbol).index[p + [v]] == symbol
  {
    hide ContextsRep, AllPlaced, AllLinked, Indexed, TreeStep, RoleStep, NodeStep, ParentStep, ContextRep, Observe, Awaits;
    var L', m' := Grown(L, p, v, t, symbol), LearnAt(m, p, v);
    assert p + [v] in L.index <==> Ctx(m, p).counts[v] > 0 by {
      ContextOf(s, L, m, p);
      PlacedAt(L, p, v);
      CountOf(s, L.index[p], L.trees[p], Ctx(m, p), p, v);
    }
    SymbolOf(L, next, p, v, t, symbol);
    GrownIndexed(L, next, p, v, t, symbol);
    GrownPlaced(L, next, p, v, t, symbol);
    GrownLinked(s, s', next, L, open, p, v, t, symbol);
    forall q | q in L'.index ensures ContextRep(s', L'.index[q], L'.trees[q], Ctx(m', q), q) {
      if q in L.index && q != p {
        GrownContext(s, s', next, L, m, p, v, t, symbol, q);
      } else if q != p {
        assert Ctx(m', q) == Empty();
        NewContext(s, s', next, L, p, v);
      }
    }
    assert L'.trees.Keys == L'.index.Keys;
    assert ContextsRep(s', L', m') by { ContextsEverywhere(s', L', m'); }
  }

  lemma {:induction false} ContextsEverywhere(s: seq<Symbol>, L: Layout, m: Model)
    requires L.trees.Keys == L.index.Keys && forall q :: q in L.index ==> ContextRep(s, L.index[q], L.trees[q], Ctx(m, q), q)
    ensures ContextsRep(s, L, m)
  {
  }

  lemma {:induction false} CountOf(s: seq<Symbol>, i: nat, t: Tree, ctx: Context, p: Path, v: Byte)
    requires ContextRep(s, i, t, ctx, p)
    ensures |ctx.counts| == 256 && CountIn(t, v) == ctx.counts[v]
  {
  }

  lemma {:induction false} SymbolOf(L: Layout, next: nat, p: Path, v: Byte, t: Tree, symbol: nat)
    requires p in L.index && p in L.trees && TreeStep(L, next, p, v, t, symbol)
    ensures symbol == if p + [v] in L.index then L.index[p + [v]] else next
  {
  }

  /** A created symbol is an empty context. */
  lemma {:induction false} NewContext(s: seq<Symbol>, s': seq<Symbol>, next: nat, L: Layout, p: Path, v: Byte)
    requires p in L.index && p + [v] !in L.index && next < |s|
    requires RoleStep(s, s', L.index[p], Created(L, next, p, v))
    ensures ContextRep(s', next, Nil, Empty(), p + [v])
  {
    NilIsEmpty();
    BelowZero(NO_COUNTS, 256);
    hide CountIn, Ordered, Descending, Below;
  }

  // ---- The steps of the source, as functions on the table ----

  /** `ENET_CONTEXT_ENCODE`: the search for v in the context at symbol i. */
  function EncodeIn(s: seq<Symbol>, i: nat, v: Byte, update: nat, minimum: nat, next: nat): (w: Walk)
    requires i < next < |s| && i + s[i].symbols < next
    ensures |w.s| == |s|
  {
    if s[i].symbols == 0 then
      Walk(s[next := NewSymbol(v, update)][i := s[i].(symbols := next - i)], next, v * minimum, 0)
    else EncodeWalk(s, i + s[i].symbols, v, update, next, v * minimum)
  }

  /** `*parent = symbol`, when what waits is a symbol. */
  function SetParent(s: seq<Symbol>, waiting: int, parent: nat): (r: seq<Symbol>)
    ensures |r| == |s|
  {
    if 0 <= waiting < |s| then s[waiting := s[waiting].(parent := parent)] else s
  }

  /** `ENET_CONTEXT_RESCALE`. */
  function RescaleContext(s: seq<Symbol>, i: nat, minimum: nat): (r: seq<Symbol>)
    requires i < |s| && i + s[i].symbols < |s|
    ensures |r| == |s|
  {
    var (s1, total) := if s[i].symbols != 0 then RescaleFrom(s, i + s[i].symbols, 0) else (s, 0);
    var escapes := s1[i].escapes - s1[i].escapes / 2;
    s1[i := s1[i].(escapes := escapes, total := total + escapes + 256 * minimum)]
  }

  /** A context after a byte of the given old count: totals first, then rescaling if they or the count got too large. */
  function SettleAt(s: seq<Symbol>, i: nat, delta: nat, minimum: nat, count: nat): (r: seq<Symbol>)
    requires i < |s| && i + s[i].symbols < |s|
    ensures |r| == |s|
  {
    var s1 := AddTotals(s, i, delta, count);
    if count > 0xFF - 2 * delta + minimum || s1[i].total > TOTAL_LIMIT then RescaleContext(s1, i, minimum) else s1
  }

  function AddTotals(s: seq<Symbol>, i: nat, delta: nat, count: nat): (r: seq<Symbol>)
    requires i < |s|
    ensures |r| == |s|
  {
    var escapes := if count == 0 then ESCAPE_DELTA else 0;
    s[i := s[i].(escapes := s[i].escapes + escapes, total := s[i].total + escapes + delta)]
  }

  // ---- Their effect on one context ----

  /** Context i may hold tree t, whose symbols come after it and before `next`. */
  ghost predicate HoldsTree(s: seq<Symbol>, i: nat, t: Tree, next: nat) {
    && i < |s| && Hangs(s, i, s[i].symbols, t) && Ordered(t, 0, 256) && Descending(t)
    && forall j :: j in Nodes(t) ==> i < j < next
  }

  ghost function NewIn(t: Tree, v: Byte, next: nat): set<nat> {
    if CountIn(t, v) == 0 then {next} else {}
  }

  lemma {:induction false} HeldBelow(s: seq<Symbol>, i: nat, t: Tree, next: nat)
    requires HoldsTree(s, i, t, next) && i < next <= |s|
    ensures i + s[i].symbols < next && i !in Nodes(t) && Roomy(t, next)
  {
    assert t.Node? ==> t.at in Nodes(t);
  }

  ghost predicate EncodedIn(w: Walk, s: seq<Symbol>, i: nat, t: Tree, v: Byte, update: nat, minimum: nat, next: nat) {
    var u := Insert(t, v, update, next);
    && |w.s| == |s| && HoldsTree(w.s, i, u, next + 1)
    && w.under == v * minimum + Before(t, v) && w.count == CountIn(t, v)
    && w.symbol == (if CountIn(t, v) == 0 then next else Find(t, v))
    && RoleStep(s, w.s, i, NewIn(t, v, next)) && NodeStep(s, w.s, Nodes(u)) && ParentStep(s, w.s, -1, 0, NewIn(t, v, next))
    && w.s[i].escapes == s[i].escapes && w.s[i].total == s[i].total
  }

  /** The search adds v to the tree of the context and leaves every other context alone. */
  lemma {:induction false} EncodeInInserts(s: seq<Symbol>, i: nat, t: Tree, v: Byte, update: nat, minimum: nat, next: nat)
    requires HoldsTree(s, i, t, next) && i < next < |s| && 0 < update
    ensures i + s[i].symbols < next && EncodedIn(EncodeIn(s, i, v, update, minimum, next), s, i, t, v, update, minimum, next)
  {
    hide EncodedIn, EncodeWalk, EncodeIn;
    HeldBelow(s, i, t, next);
    if s[i].symbols == 0 {
      FirstInserted(s, i, v, update, minimum, next);
    } else {
      var j := i + s[i].symbols;
      EncodeWalkInserts(s, j, t, 0, 256, v, update, next, v * minimum);
      var w := EncodeWalk(s, j, v, update, next, v * minimum);
      assert EncodeIn(s, i, v, update, minimum, next) == w by { EncodeInWalks(s, i, v, update, minimum, next); }
      WalkInserted(w, s, i, t, v, update, minimum, next);
    }
  }

  lemma {:induction false} EncodeInWalks(s: seq<Symbol>, i: nat, v: Byte, update: nat, minimum: nat, next: nat)
    requires i < next < |s| && i + s[i].symbols < next && s[i].symbols != 0
    ensures EncodeIn(s, i, v, update, minimum, next) == EncodeWalk(s, i + s[i].symbols, v, update, next, v * minimum)
  {
  }

  lemma {:induction false} FirstInserted(s: seq<Symbol>, i: nat, v: Byte, update: nat, minimum: nat, next: nat)
    requires i < next < |s| && s[i].symbols == 0 && 0 < update
    ensures EncodedIn(EncodeIn(s, i, v, update, minimum, next), s, i, Nil, v, update, minimum, next)
  {
    var w, u := EncodeIn(s, i, v, update, minimum, next), Insert(Nil, v, update, next);
    assert u == Node(next, v, update, Nil, Nil) && Represents(w.s, next, u);
    OneNode(next, v, update);
    hide Ordered, Descending, Represents;
    assert NewIn(Nil, v, next) == {next};
  }

  lemma {:induction false} OneNode(at: nat, v: Byte, count: nat)
    requires 0 < count
    ensures var u := Node(at, v, count, Nil, Nil); Ordered(u, 0, 256) && Descending(u) && Nodes(u) == {at}
  {
    assert Nodes(Nil) == {} && Descending(Nil) && Ordered(Nil, 0, v) && Ordered(Nil, v + 1, 256);
  }

  lemma {:induction false} WalkInserted(w: Walk, s: seq<Symbol>, i: nat, t: Tree, v: Byte, update: nat, minimum: nat, next: nat)
    requires HoldsTree(s, i, t, next) && i < next < |s| && 0 < update && s[i].symbols != 0
    requires Inserted(w, s, i + s[i].symbols, t, v, update, next, v * minimum)
    ensures EncodedIn(w, s, i, t, v, update, minimum, next)
  {
    var u := Insert(t, v, update, next);
    HeldBelow(s, i, t, next);
    assert Ordered(u, 0, 256) && Descending(u) && Nodes(u) == Nodes(t) + NewIn(t, v, next) by {
      InsertSpec(t, 0, 256, v, update, next);
      InsertDescends(t, 0, 256, v, update, next);
      InsertNodes(t, 0, 256, v, update, next);
    }
    hide Ordered, Descending, Represents, Nodes, CountIn, Insert, Before;
    WalkIsStep(s, w.s, i, t, v, update, next);
    hide WalkFrame, RoleStep, NodeStep, ParentStep;
  }

  lemma {:induction false} WalkIsStep(s: seq<Symbol>, s': seq<Symbol>, i: nat, t: Tree, v: Byte, update: nat, next: nat)
    requires WalkFrame(s, s', t, v, update, next) && i < |s| && i !in Nodes(t) && i < next && next !in Nodes(t)
    ensures RoleStep(s, s', i, NewIn(t, v, next)) && NodeStep(s, s', Nodes(t) + NewIn(t, v, next))
    ensures ParentStep(s, s', -1, 0, NewIn(t, v, next)) && s'[i] == s[i]
  {
    hide Nodes, CountIn;
  }

  // ---- Settling a context ----

  /** What settling may touch. */
  ghost predicate SettledIn(s: seq<Symbol>, s': seq<Symbol>, i: nat, nodes: set<nat>) {
    RoleStep(s, s', i, {}) && NodeStep(s, s', nodes) && ParentStep(s, s', -1, 0, {})
  }

  lemma {:induction false} RescaleContextHalves(s: seq<Symbol>, i: nat, t: Tree, next: nat, minimum: nat)
    requires HoldsTree(s, i, t, next) && i < next <= |s|
    ensures i + s[i].symbols < next
    ensures var s' := RescaleContext(s, i, minimum); var escapes := Halve(s[i].escapes);
            && HoldsTree(s', i, Halved(t), next) && SettledIn(s, s', i, Nodes(t))
            && s'[i].escapes == escapes && s'[i].total == Weight(Halved(t)) + escapes + 256 * minimum
  {
    HeldBelow(s, i, t, next);
    hide Ordered, Descending, Nodes, RescaleFrom, SettledIn, Represents, Halved, Weight;
    var s' := RescaleContext(s, i, minimum);
    if s[i].symbols != 0 {
      RescaleHalves(s, i + s[i].symbols, t, 0);
      var r := RescaleFrom(s, i + s[i].symbols, 0);
      assert s' == r.0[i := s'[i]] && s'[i].escapes == Halve(r.0[i].escapes) && s'[i].total == r.1 + s'[i].escapes + 256 * minimum
        && s'[i] == r.0[i].(escapes := s'[i].escapes, total := s'[i].total);
      hide RescaleContext;
      RescaledIn(s, r, s', i, t, next);
    } else {
      assert t == Nil && Halved(Nil) == Nil && Weight(Nil) == 0 && s' == s[i := s[i].(escapes := s'[i].escapes, total := s'[i].total)] by { NilIsEmpty(); }
      assert SettledIn(s, s', i, Nodes(t)) by { TopSettled(s, s', i, Nodes(t)); }
    }
  }

  lemma {:induction false} TopSettled(s: seq<Symbol>, s': seq<Symbol>, i: nat, nodes: set<nat>)
    requires i < |s| && |s'| == |s| && s' == s[i := s'[i]] && s'[i] == s[i].(escapes := s'[i].escapes, total := s'[i].total)
    ensures SettledIn(s, s', i, nodes)
  {
  }

  lemma {:induction false} RescaledIn(s: seq<Symbol>, r: (seq<Symbol>, nat), s': seq<Symbol>, i: nat, t: Tree, next: nat)
    requires HoldsTree(s, i, t, next) && i < next <= |s| && s[i].symbols != 0 && i !in Nodes(t)
    requires IsRescaled(r, s, i + s[i].symbols, t, 0)
    requires |s'| == |s| && s' == r.0[i := s'[i]] && s'[i] == r.0[i].(escapes := s'[i].escapes, total := s'[i].total)
    ensures HoldsTree(s', i, Halved(t), next) && SettledIn(s, s', i, Nodes(t)) && r.0[i] == s[i]
    ensures r.1 == Weight(Halved(t))
  {
    hide Ordered, Descending, Nodes, Weight, Represents, Halved, OnlyNodesChanged;
    OthersKept(s, r.0, Nodes(t), i);
    SameSize(s, r.0, Nodes(t));
    assert SettledIn(s, s', i, Nodes(t)) by { ChangedIsSettled(s, r.0, s', i, Nodes(t)); }
    hide SettledIn;
    assert Ordered(Halved(t), 0, 256) && Descending(Halved(t)) && Nodes(Halved(t)) == Nodes(t) by {
      HalvedSpec(t, 0, 256);
    }
    assert Represents(s', i + s[i].symbols, Halved(t)) by {
      RepresentsFrame(r.0, s', i + s[i].symbols, Halved(t));
    }
  }

  lemma {:induction false} ChangedIsSettled(s: seq<Symbol>, r: seq<Symbol>, s': seq<Symbol>, i: nat, nodes: set<nat>)
    requires OnlyNodesChanged(s, r, nodes) && i < |s|
    requires |s'| == |s| && s' == r[i := s'[i]] && s'[i] == r[i].(escapes := s'[i].escapes, total := s'[i].total)
    ensures SettledIn(s, s', i, nodes)
  {
  }

  /** The context after the search bumped v: settling makes it the context the model has learned. */
  lemma {:induction false} SettleObserves(s: seq<Symbol>, i: nat, u: Tree, next: nat, ctx: Context, p: Path, v: Byte) returns (t: Tree)
    requires HoldsTree(s, i, u, next) && i < next <= |s| && |ctx.counts| == 256
    requires s[i].escapes == ctx.escapes && s[i].total == Total(ctx, p)
    requires forall w :: 0 <= w < 256 ==> CountIn(u, w) == Bumped(ctx, p, v).counts[w]
    ensures i + s[i].symbols < next
    ensures var s' := SettleAt(s, i, Delta(p), Minimum(p), ctx.counts[v] + Minimum(p));
            ContextRep(s', i, t, Observe(ctx, p, v), p) && SettledIn(s, s', i, Nodes(u))
    ensures t == u || t == Halved(u)
  {
    hide Ordered, Descending, Nodes, RescaleContext, Below, Hangs, SettledIn, CountIn, Halved;
    HeldBelow(s, i, u, next);
    var s1 := AddTotals(s, i, Delta(p), ctx.counts[v] + Minimum(p));
    TotalsAdded(s, i, u, next, ctx, p, v);
    hide AddTotals, Bumped;
    if NeedsRescale(Bumped(ctx, p, v), p, ctx.counts[v] + Minimum(p)) {
      t := Halved(u);
      RescaledObserves(s1, i, u, next, Bumped(ctx, p, v), p);
      SettledTwice(s, s1, RescaleContext(s1, i, Minimum(p)), i, Nodes(u));
    } else {
      t := u;
    }
  }

  lemma {:induction false} TotalsAdded(s: seq<Symbol>, i: nat, u: Tree, next: nat, ctx: Context, p: Path, v: Byte)
    requires HoldsTree(s, i, u, next) && i < next <= |s| && |ctx.counts| == 256
    requires s[i].escapes == ctx.escapes && s[i].total == Total(ctx, p)
    ensures var s1, bumped := AddTotals(s, i, Delta(p), ctx.counts[v] + Minimum(p)), Bumped(ctx, p, v);
            && s1[i].symbols == s[i].symbols && s1[i].escapes == bumped.escapes && s1[i].total == Total(bumped, p)
            && HoldsTree(s1, i, u, next) && SettledIn(s, s1, i, Nodes(u))
  {
    hide Ordered, Descending, Nodes;
    var s1 := AddTotals(s, i, Delta(p), ctx.counts[v] + Minimum(p));
    BelowUpdate(ctx.counts, v, ctx.counts[v] + Delta(p), 256);
    if s[i].symbols != 0 {
      RepresentsFrame(s, s1, i + s[i].symbols, u);
    }
    hide Represents;
    TopSettled(s, s1, i, Nodes(u));
  }

  lemma {:induction false} RescaledObserves(s: seq<Symbol>, i: nat, u: Tree, next: nat, bumped: Context, p: Path)
    requires HoldsTree(s, i, u, next) && i < next <= |s| && |bumped.counts| == 256 && s[i].escapes == bumped.escapes
    requires forall w :: 0 <= w < 256 ==> CountIn(u, w) == bumped.counts[w]
    ensures i + s[i].symbols < next
    ensures var s' := RescaleContext(s, i, Minimum(p));
            ContextRep(s', i, Halved(u), FrequencyModel.Rescaled(bumped), p) && SettledIn(s, s', i, Nodes(u))
  {
    hide Ordered, Descending, Nodes, RescaleContext, Below, Hangs, SettledIn, CountIn, Halved, Weight;
    RescaleContextHalves(s, i, u, next, Minimum(p));
    RescaledCounts(u, bumped);
  }

  lemma {:induction false} SettledTwice(s: seq<Symbol>, s1: seq<Symbol>, s2: seq<Symbol>, i: nat, nodes: set<nat>)
    requires SettledIn(s, s1, i, nodes) && SettledIn(s1, s2, i, nodes)
    ensures SettledIn(s, s2, i, nodes)
  {
  }

  lemma {:induction false} RescaledCounts(u: Tree, ctx: Context)
    requires Ordered(u, 0, 256) && |ctx.counts| == 256
    requires forall w :: 0 <= w < 256 ==> CountIn(u, w) == ctx.counts[w]
    ensures forall w :: 0 <= w < 256 ==> CountIn(Halved(u), w) == FrequencyModel.Rescaled(ctx).counts[w]
    ensures Weight(Halved(u)) == Below(FrequencyModel.Rescaled(ctx).counts, 256)
  {
    HalvedSpec(u, 0, 256);
    BeforeIsBelow(Halved(u), FrequencyModel.Rescaled(ctx).counts, 256);
  }

  // ---- All steps together ----

  /** Search, link and settle: what the source does with byte v at the context of path p. */
  function LearnIn(s: seq<Symbol>, i: nat, p: Path, v: Byte, next: nat, waiting: int): (r: (Walk, seq<Symbol>))
    requires i < next < |s| && i + s[i].symbols < next
  {
    var w := EncodeIn(s, i, v, Delta(p), Minimum(p), next);
    var s2 := SetParent(w.s, waiting, w.symbol);
    (w, if i + s2[i].symbols < |s| then SettleAt(s2, i, Delta(p), Minimum(p), w.count + Minimum(p)) else s2)
  }

  /** The steps of the source learn byte v at context p: the table afterwards represents the model that
      has learned it, and the search reports the cumulative count and count of the model. */
  lemma {:induction false} LearnsTable(s: seq<Symbol>, next: nat, L: Layout, m: Model, open: Option<Path>, p: Path, v: Byte) returns (L': Layout)
    requires Table(s, next, L, m, open) && ContextsOk(m) && p in L.index && |p| <= ORDER && next < TABLE_SIZE && Awaits(L, open, p, v)
    ensures var i := L.index[p]; i < next < |s| && i + s[i].symbols < next
    ensures var w := LearnIn(s, L.index[p], p, v, next, Waiting(L, open)).0;
            && L.index[p] + w.s[L.index[p]].symbols < |s|
            && w.under == v * Minimum(p) + Below(Ctx(m, p).counts, v) && w.count == Ctx(m, p).counts[v]
            && (p + [v] in L.index <==> w.count > 0) && (w.symbol == next <==> w.count == 0)
    ensures var r := LearnIn(s, L.index[p], p, v, next, Waiting(L, open));
            && Table(r.1, if r.0.count == 0 then next + 1 else next, L', LearnAt(m, p, v), OpenAfter(L, p, v))
            && p + [v] in L'.index && L'.index[p + [v]] == r.0.symbol
    ensures L'.index.Keys == L.index.Keys + {p + [v]} && forall q :: q in L.index ==> L'.index[q] == L.index[q]
  {
    hide ContextsRep, AllPlaced, AllLinked, Indexed, TreeStep, RoleStep, NodeStep, ParentStep, Observe, Awaits,
         EncodeIn, SetParent, SettleAt, Below, Bumped, HoldsTree, EncodedIn, ContextRep, LearnStep, SettledIn, Nodes, CountIn;
    var i, ctx, t0 := L.index[p], Ctx(m, p), L.trees[p];
    IndexOf(L, next, p, p);
    HoldsOf(s, next, L, m, open, p);
    assert ContextOk(ctx, p);
    PlacedAt(L, p, v);
    EncodeInInserts(s, i, t0, v, Delta(p), Minimum(p), next);
    var w := EncodeIn(s, i, v, Delta(p), Minimum(p), next);
    var u := Insert(t0, v, Delta(p), next);
    EncodedContext(w, s, i, t0, v, next, ctx, p);
    var s2 := SetParent(w.s, Waiting(L, open), w.symbol);
    ParentSet(w.s, i, u, next + 1, Waiting(L, open), w.symbol);
    var t := SettleObserves(s2, i, u, next + 1, ctx, p, v);
    assert i + s2[i].symbols < |s| by { HeldBelow(s2, i, u, next + 1); }
    var r := LearnIn(s, i, p, v, next, Waiting(L, open));
    StepsCompose(w, s, i, t0, u, v, next, Minimum(p), Delta(p), Waiting(L, open), s2, r.1);
    assert Created(L, next, p, v) == NewIn(t0, v, next);
    assert Ordered(t0, 0, 256) by { HoldsOrdered(s, i, t0, next); }
    TreeStepOf(L, next, p, v, t0, u, t, w.symbol);
    assert LearnStep(s, r.1, next, L, m, open, p, v, t, w.symbol) by { LearnStepOf(s, r.1, next, L, m, open, p, v, t, w.symbol); }
    LearnTable(s, r.1, next, L, m, open, p, v, t, w.symbol);
    if p + [v] in L.index {
      IndexOf(L, next, p + [v], p);
    }
    L' := Grown(L, p, v, t, w.symbol);
  }

  lemma {:induction false} LearnStepOf(s: seq<Symbol>, s': seq<Symbol>, next: nat, L: Layout, m: Model, open: Option<Path>,
                    p: Path, v: Byte, t: Tree, symbol: nat)
    requires p in L.index && p in L.trees && |Ctx(m, p).counts| == 256
    requires |s'| == |s| && ContextRep(s', L.index[p], t, Observe(Ctx(m, p), p, v), p)
    requires TreeStep(L, next, p, v, t, symbol) && Awaits(L, open, p, v)
    requires RoleStep(s, s', L.index[p], Created(L, next, p, v)) && NodeStep(s, s', Nodes(t))
    requires ParentStep(s, s', Waiting(L, open), symbol, Created(L, next, p, v))
    ensures LearnStep(s, s', next, L, m, open, p, v, t, symbol)
  {
  }

  lemma {:induction false} HoldsOf(s: seq<Symbol>, next: nat, L: Layout, m: Model, open: Option<Path>, p: Path)
    requires Table(s, next, L, m, open) && p in L.index
    ensures HoldsTree(s, L.index[p], L.trees[p], next)
    ensures ContextRep(s, L.index[p], L.trees[p], Ctx(m, p), p)
  {
    hide ContextsRep, AllPlaced, AllLinked, Nodes, Ordered, Descending;
    ContextOf(s, L, m, p);
    TreesApart(s, next, L, m, p, p);
  }

  lemma {:induction false} HoldsOrdered(s: seq<Symbol>, i: nat, t: Tree, next: nat)
    requires HoldsTree(s, i, t, next)
    ensures Ordered(t, 0, 256)
  {
  }

  /** What the search reports, in terms of the model. */
  lemma {:induction false} EncodedContext(w: Walk, s: seq<Symbol>, i: nat, t: Tree, v: Byte, next: nat, ctx: Context, p: Path)
    requires ContextRep(s, i, t, ctx, p) && EncodedIn(w, s, i, t, v, Delta(p), Minimum(p), next)
    ensures |w.s| == |s| && i < |s| && |ctx.counts| == 256
    ensures w.under == v * Minimum(p) + Below(ctx.counts, v) && w.count == ctx.counts[v] == CountIn(t, v)
    ensures w.symbol == if w.count == 0 then next else Find(t, v)
    ensures HoldsTree(w.s, i, Insert(t, v, Delta(p), next), next + 1)
    ensures w.s[i].escapes == ctx.escapes && w.s[i].total == Total(ctx, p)
    ensures forall x :: 0 <= x < 256 ==> CountIn(Insert(t, v, Delta(p), next), x) == Bumped(ctx, p, v).counts[x]
  {
    hide HoldsTree, RoleStep, NodeStep, ParentStep, Hangs, Descending, Nodes, Total;
    InsertSpec(t, 0, 256, v, Delta(p), next);
    BeforeIsBelow(t, ctx.counts, v);
    hide Ordered, CountIn, Before, Below;
  }

  lemma {:induction false} ParentSet(s: seq<Symbol>, i: nat, u: Tree, next: nat, waiting: int, parent: nat)
    requires HoldsTree(s, i, u, next)
    ensures var s' := SetParent(s, waiting, parent);
            && HoldsTree(s', i, u, next) && s'[i].symbols == s[i].symbols
            && s'[i].escapes == s[i].escapes && s'[i].total == s[i].total
  {
    hide Ordered, Descending, Nodes;
    var s' := SetParent(s, waiting, parent);
    if s[i].symbols != 0 {
      RepresentsFrame(s, s', i + s[i].symbols, u);
    }
  }

  lemma {:induction false} StepsCompose(w: Walk, s: seq<Symbol>, i: nat, t: Tree, u: Tree, v: Byte, next: nat, minimum: nat, update: nat,
                     waiting: int, s2: seq<Symbol>, s3: seq<Symbol>)
    requires EncodedIn(w, s, i, t, v, update, minimum, next) && u == Insert(t, v, update, next)
    requires s2 == SetParent(w.s, waiting, w.symbol) && SettledIn(s2, s3, i, Nodes(u)) && i < |s| && i != next
    ensures |s3| == |s| && RoleStep(s, s3, i, NewIn(t, v, next)) && NodeStep(s, s3, Nodes(u))
    ensures ParentStep(s, s3, waiting, w.symbol, NewIn(t, v, next))
  {
    hide Nodes, CountIn, HoldsTree, Before, Find, Insert;
  }

  /** The tree of the context after the bump, and after halving, is that of a learned byte. */
  lemma {:induction false} TreeStepOf(L: Layout, next: nat, p: Path, v: Byte, t0: Tree, u: Tree, t: Tree, symbol: nat)
    requires p in L.index && p in L.trees && t0 == L.trees[p] && Ordered(t0, 0, 256) && u == Insert(t0, v, Delta(p), next)
    requires t == u || t == Halved(u)
    requires p + [v] in L.index <==> CountIn(t0, v) > 0
    requires CountIn(t0, v) > 0 ==> L.index[p + [v]] == Find(t0, v)
    requires symbol == if CountIn(t0, v) == 0 then next else Find(t0, v)
    ensures TreeStep(L, next, p, v, t, symbol) && Nodes(t) == Nodes(u)
  {
    InsertSpec(t0, 0, 256, v, Delta(p), next);
    InsertNodes(t0, 0, 256, v, Delta(p), next);
    HalvedSpec(u, 0, 256);
    forall w: Byte | w != v && CountIn(u, w) > 0 ensures Find(u, w) == Find(t0, w) {
      InsertFinds(t0, 0, 256, v, Delta(p), next, w);
    }
    hide Ordered, Nodes, CountIn, Find, Insert, Halved;
  }

  lemma {:induction false} InsertFinds(t: Tree, lo: nat, hi: nat, v: Byte, update: nat, spare: nat, w: Byte)
    requires Ordered(t, lo, hi) && w != v && CountIn(Insert(t, v, update, spare), w) > 0
    ensures CountIn(t, w) > 0 && Find(Insert(t, v, update, spare), w) == Find(t, w)
  {
    if t.Node? {
      if v < t.value && w < t.value {
        InsertFinds(t.left, lo, t.value, v, update, spare, w);
      } else if v > t.value && w > t.value {
        InsertFinds(t.right, t.value + 1, hi, v, update, spare, w);
      }
    }
  }

  // ---- The decoder's search ----

  /** `ENET_CONTEXT_DECODE`: the search for the value whose slot holds part `code`. */
  function DecodeIn(s: seq<Symbol>, i: nat, code: nat, update: nat, minimum: nat, next: nat): Search
    requires i < next < |s| && i + s[i].symbols < next
  {
    if s[i].symbols != 0 then DecodeWalk(s, i + s[i].symbols, code, minimum, update, next, 0)
    else if minimum == 0 then Miss
    else
      var v := code / minimum % 256;
      Hit(v, Walk(s[next := NewSymbol(v, update)][i := s[i].(symbols := next - i)], next, code - code % minimum, 0))
  }

  /** Part `code` of a context, counted after the escapes, leads the decoder's search to the value whose
      slot it lies in, and there it does to the table exactly what the encoder's search for that value does. */
  lemma {:induction false} DecodeInAgrees(s: seq<Symbol>, next: nat, L: Layout, m: Model, open: Option<Path>, p: Path, v: Byte, code: nat)
    requires Table(s, next, L, m, open) && ContextsOk(m) && p in L.index && next < TABLE_SIZE
    requires p == [] || Ctx(m, p).counts[v] > 0
    requires v * Minimum(p) + Below(Ctx(m, p).counts, v) <= code < (v + 1) * Minimum(p) + Below(Ctx(m, p).counts, v + 1)
    ensures var i := L.index[p];
            && i < next < |s| && i + s[i].symbols < next
            && DecodeIn(s, i, code, Delta(p), Minimum(p), next) == Hit(v, EncodeIn(s, i, v, Delta(p), Minimum(p), next))
  {
    hide ContextsRep, AllPlaced, AllLinked, ContextOk, HoldsTree, DecodeIn, EncodeIn;
    var i, t, ctx := L.index[p], L.trees[p], Ctx(m, p);
    HoldsOf(s, next, L, m, open, p);
    IndexOf(L, next, p, p);
    hide Indexed;
    assert Before(t, v) == Below(ctx.counts, v) && CountIn(t, v) == ctx.counts[v] by { BeforeIsBelow(t, ctx.counts, v); }
    assert Below(ctx.counts, v + 1) == Below(ctx.counts, v) + ctx.counts[v];
    assert v * Minimum(p) == if p == [] then v else 0;
    hide ContextRep, Below, Before, CountIn;
    assert InSlot(t, v, code, Minimum(p), 0);
    HeldSearch(s, i, t, v, code, Minimum(p), Delta(p), next);
  }

  lemma {:induction false} HeldSearch(s: seq<Symbol>, i: nat, t: Tree, v: Byte, code: nat, minimum: nat, update: nat, next: nat)
    requires HoldsTree(s, i, t, next) && i < next < |s| && minimum <= 1 && InSlot(t, v, code, minimum, 0)
    ensures i + s[i].symbols < next
    ensures DecodeIn(s, i, code, update, minimum, next) == Hit(v, EncodeIn(s, i, v, update, minimum, next))
  {
    HeldBelow(s, i, t, next);
    hide DecodeWalk, EncodeWalk, Nodes, Descending;
    if s[i].symbols == 0 {
      assert minimum == 1 && code == v;
      assert forall n: int :: n / 1 == n && n % 1 == 0;
    } else {
      hide Before, CountIn, InSlot;
      DecodeWalkAgrees(s, i + s[i].symbols, t, 0, 256, v, code, minimum, update, next, 0);
    }
  }

  /** A part past every slot of a context other than the root is a miss. */
  lemma {:induction false} DecodeInMisses(s: seq<Symbol>, next: nat, L: Layout, m: Model, open: Option<Path>, p: Path, code: nat)
    requires Table(s, next, L, m, open) && ContextsOk(m) && p in L.index && next < TABLE_SIZE && p != []
    requires Below(Ctx(m, p).counts, 256) <= code
    ensures var i := L.index[p];
            i < next < |s| && i + s[i].symbols < next && DecodeIn(s, i, code, Delta(p), 0, next) == Miss
  {
    hide ContextsRep, AllPlaced, AllLinked, DecodeWalk, ContextOk;
    var i, t := L.index[p], L.trees[p];
    HoldsOf(s, next, L, m, open, p);
    IndexOf(L, next, p, p);
    HeldBelow(s, i, t, next);
    BeforeIsBelow(t, Ctx(m, p).counts, 256);
    hide Ordered, Descending, Nodes, CountIn, Below;
    if s[i].symbols != 0 {
      DecodeWalkMisses(s, i + s[i].symbols, t, code, Delta(p), next, 0);
    }
  }

  // ---- Parents ----

  /** Giving the last waiting symbol its parent completes the table. */
  lemma {:induction false} CloseTable(s: seq<Symbol>, next: nat, L: Layout, m: Model, q: Path)
    requires Table(s, next, L, m, Some(q)) && q in L.index && q != [] && q[1..] in L.index
    ensures Table(SetParent(s, L.index[q], L.index[q[1..]]), next, L, m, None)
  {
    hide ContextsRep, AllLinked, AllPlaced, ContextRep, Indexed;
    var s' := SetParent(s, L.index[q], L.index[q[1..]]);
    IndexOf(L, next, q, q);
    forall p | p in L.index ensures ContextRep(s', L.index[p], L.trees[p], Ctx(m, p), p) {
      ContextOf(s, L, m, p);
      ParentsAside(s, s', L.index[p], L.trees[p], Ctx(m, p), p, L.index[q]);
    }
    forall p | p in L.index ensures Linked(s', L, p) {
      IndexOf(L, next, p, q);
      if p != q {
        LinkOf(s, L, Some(q), p);
      }
    }
    hide SetParent, Linked;
    ContextsEverywhere(s', L, m);
    LinkedEverywhere(s', L, None);
  }

  lemma {:induction false} ParentsAside(s: seq<Symbol>, s': seq<Symbol>, i: nat, t: Tree, ctx: Context, p: Path, j: nat)
    requires ContextRep(s, i, t, ctx, p) && j < |s| && |s'| == |s| && s' == s[j := s[j].(parent := s'[j].parent)]
    ensures ContextRep(s', i, t, ctx, p)
  {
    hide Nodes, Ordered, Descending, CountIn, Below;
    if s[i].symbols != 0 {
      RepresentsFrame(s, s', i + s[i].symbols, t);
    }
  }

  /** A table with nothing left open is, all the more, one with something open. */
  lemma {:induction false} OpenTable(s: seq<Symbol>, next: nat, L: Layout, m: Model, open: Option<Path>)
    requires Table(s, next, L, m, None)
    ensures Table(s, next, L, m, open)
  {
    hide ContextsRep, AllPlaced, Indexed;
    forall p | p in L.index ensures Linked(s, L, p) {
      LinkOf(s, L, None, p);
    }
  }

  // ---- What the table looks like from outside ----

  lemma {:induction false} NodeFound(s: seq<Symbol>, i: nat, t: Tree, lo: nat, hi: nat, v: nat)
    requires Represents(s, i, t) && Ordered(t, lo, hi) && CountIn(t, v) > 0
    ensures var j := Find(t, v);
            && j < |s| && s[j].value == v && s[j].count == CountIn(t, v) && s[j].under <= Weight(t)
            && (s[j].left != 0 ==> j + s[j].left in Nodes(t)) && (s[j].right != 0 ==> j + s[j].right in Nodes(t))
    decreases t
  {
    if v < t.value {
      NodeFound(s, i + s[i].left, t.left, lo, t.value, v);
    } else if v > t.value {
      NodeFound(s, i + s[i].right, t.right, t.value + 1, hi, v);
    } else {
      assert t.left.Node? ==> t.left.at in Nodes(t.left);
      assert t.right.Node? ==> t.right.at in Nodes(t.right);
    }
  }

  /** The symbol of a path, as a node: its value is the last byte, its count the one of the model. */
  lemma {:induction false} NodeOfPath(s: seq<Symbol>, next: nat, L: Layout, m: Model, p: Path, v: Byte)
    requires Table(s, next, L, m, None) && p in L.index && p + [v] in L.index
    ensures L.index[p + [v]] < next <= |s| && |Ctx(m, p).counts| == 256
    ensures var j := L.index[p + [v]];
            && s[j].value == v && s[j].count == Ctx(m, p).counts[v] > 0 && s[j].under <= Below(Ctx(m, p).counts, 256)
            && j + s[j].left < next && j + s[j].right < next
  {
    hide ContextsRep, AllPlaced, AllLinked, HoldsTree, Below, CountIn, Weight;
    var t := L.trees[p];
    HoldsOf(s, next, L, m, None, p);
    PlacedAt(L, p, v);
    IndexOf(L, next, p + [v], p);
    hide Indexed;
    assert CountIn(t, v) == Ctx(m, p).counts[v] && Weight(t) == Below(Ctx(m, p).counts, 256) by {
      BeforeIsBelow(t, Ctx(m, p).counts, 256);
    }
    hide ContextRep;
    HeldNode(s, L.index[p], t, next, v);
  }

  lemma {:induction false} HeldNode(s: seq<Symbol>, i: nat, t: Tree, next: nat, v: Byte)
    requires HoldsTree(s, i, t, next) && CountIn(t, v) > 0 && next <= |s|
    ensures var j := Find(t, v);
            && j < next && s[j].value == v && s[j].count == CountIn(t, v) && s[j].under <= Weight(t)
            && j + s[j].left < next && j + s[j].right < next
  {
    hide Descending, Nodes;
    NodeFound(s, i + s[i].symbols, t, 0, 256, v);
    assert Find(t, v) in Nodes(t) by { FoundInNodes(t, v); }
  }

  lemma {:induction false} FoundInNodes(t: Tree, v: nat)
    requires CountIn(t, v) > 0
    ensures Find(t, v) in Nodes(t)
  {
    if v < t.value {
      FoundInNodes(t.left, v);
    } else if v > t.value {
      FoundInNodes(t.right, v);
    }
  }

  /** Every stored field fits its width: counts 8 bits, sums, totals and links 16 bits. */
  lemma {:induction false} TableFits(s: seq<Symbol>, next: nat, L: Layout, m: Model, p: Path)
    requires Table(s, next, L, m, None) && ContextsOk(m) && p in L.index
    ensures L.index[p] < next <= |s|
    ensures var x := s[L.index[p]]; x.escapes < BOTTOM && x.total < BOTTOM && x.symbols < BOTTOM
    ensures p != [] ==> Fits(s[L.index[p]])
  {
    hide ContextsRep, AllPlaced, AllLinked, ContextOk, HoldsTree;
    var i := L.index[p];
    IndexOf(L, next, p, p);
    RootIndex(L, next);
    HoldsOf(s, next, L, m, None, p);
    HeldBelow(s, i, L.trees[p], next);
    assert ContextOk(Ctx(m, p), p);
    TotalFits(Ctx(m, p), p);
    LinkOf(s, L, None, p);
    if p != [] {
      var q, v := Front(p), p[|p| - 1];
      assert p == q + [v];
      IndexOf(L, next, p[1..], q);
      NodeOfPath(s, next, L, m, q, v);
      assert ContextOk(Ctx(m, q), q);
      TotalFits(Ctx(m, q), q);
      CountFits(Ctx(m, q), q, v);
    }
    hide Indexed, ContextRep;
  }

  lemma {:induction false} TotalFits(ctx: Context, p: Path)
    requires ContextOk(ctx, p)
    ensures Below(ctx.counts, 256) <= Total(ctx, p) < BOTTOM && ctx.escapes < BOTTOM
  {
  }

  lemma {:induction false} CountFits(ctx: Context, p: Path, v: Byte)
    requires ContextOk(ctx, p)
    ensures ctx.counts[v] <= 0xFF
  {
  }

  lemma {:induction false} SamePaths(s: seq<Symbol>, L: Layout, s': seq<Symbol>, L': Layout, next: nat, m: Model, p: Path)
    requires Table(s, next, L, m, None) && Table(s', next, L', m, None) && p in L.index
    ensures p in L'.index
    decreases |p|
  {
    hide ContextsRep, AllPlaced, AllLinked, ContextRep;
    if p == [] {
      RootIndex(L', next);
    } else {
      var q, v := Front(p), p[|p| - 1];
      assert p == q + [v] && q in L.index;
      SamePaths(s, L, s', L', next, m, q);
      KnownByte(s, next, L, m, q, v);
      KnownByte(s', next, L', m, q, v);
    }
  }

  lemma {:induction false} KnownByte(s: seq<Symbol>, next: nat, L: Layout, m: Model, p: Path, v: Byte)
    requires Table(s, next, L, m, None) && p in L.index
    ensures |Ctx(m, p).counts| == 256 && (p + [v] in L.index <==> Ctx(m, p).counts[v] > 0)
  {
    HoldsOf(s, next, L, m, None, p);
    PlacedAt(L, p, v);
    CountOf(s, L.index[p], L.trees[p], Ctx(m, p), p, v);
  }

  /** Two tables that represent one model, as the encoder's and the decoder's do after every byte, are
      isomorphic: they have symbols for the same paths, the symbols of a path agree as contexts and as
      counts, and parents correspond to parents, wherever the symbols are stored. */
  lemma {:induction false} TablesIsomorphic(s: seq<Symbol>, L: Layout, s': seq<Symbol>, L': Layout, next: nat, m: Model, p: Path)
    requires Table(s, next, L, m, None) && Table(s', next, L', m, None)
    ensures p in L.index <==> p in L'.index
    ensures p in L.index ==>
              var x, y := s[L.index[p]], s'[L'.index[p]];
              && x.escapes == y.escapes && x.total == y.total
              && (p != [] ==> x.value == y.value && x.count == y.count && p[1..] in L.index && p[1..] in L'.index
                              && x.parent == L.index[p[1..]] && y.parent == L'.index[p[1..]])
  {
    hide ContextsRep, AllPlaced, AllLinked, Total;
    if p in L.index {
      SamePaths(s, L, s', L', next, m, p);
    } else if p in L'.index {
      SamePaths(s', L', s, L, next, m, p);
    }
    if p in L.index {
      HoldsOf(s, next, L, m, None, p);
      HoldsOf(s', next, L', m, None, p);
      LinkOf(s, L, None, p);
      LinkOf(s', L', None, p);
      if p != [] {
        var q, v := Front(p), p[|p| - 1];
        assert p == q + [v] && q in L.index && q in L'.index;
        NodeOfPath(s, next, L, m, q, v);
        NodeOfPath(s', next, L', m, q, v);
      }
    }
  }
}
