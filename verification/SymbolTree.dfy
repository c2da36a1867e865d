/** The binary search trees threaded through the symbol table of src/compress.c.

  A symbol is at once a node of the tree of its context and a context of its own. Links are
  offsets to later symbols. `Tree` is the shape a context's links describe.
 */
module SymbolTree {
  import opened Carryless
  import opened FrequencyModel

  datatype Symbol = Symbol(value: Byte, count: nat, under: nat, left: nat, right: nat,
                           symbols: nat, escapes: nat, total: nat, parent: nat)

  /** The widths of the fields: 8 bits for counts, 16 bits for everything but the value. */
  ghost predicate Fits(x: Symbol) {
    && x.count <= 0xFF && x.under < BOTTOM && x.left < BOTTOM && x.right < BOTTOM
    && x.symbols < BOTTOM && x.escapes < BOTTOM && x.total < BOTTOM && x.parent < BOTTOM
  }

  /** `ENET_SYMBOL_CREATE`. */
  function NewSymbol(value: Byte, count: nat): Symbol {
    Symbol(value, count, count, 0, 0, 0, 0, 0, 0)
  }

  datatype Tree = Nil | Node(at: nat, value: Byte, count: nat, left: Tree, right: Tree)

  function Weight(t: Tree): nat {
    if t == Nil then 0 else t.count + Weight(t.left) + Weight(t.right)
  }

  function Nodes(t: Tree): set<nat> {
    if t == Nil then {} else {t.at} + Nodes(t.left) + Nodes(t.right)
  }

  function CountIn(t: Tree, v: nat): nat {
    if t == Nil then 0 else if v < t.value then CountIn(t.left, v) else if v > t.value then CountIn(t.right, v) else t.count
  }

  /** The weight of the values less than v. */
  function Before(t: Tree, v: nat): nat {
    if t == Nil then 0 else if v <= t.value then Before(t.left, v) else Weight(t.left) + t.count + Before(t.right, v)
  }

  /** Binary search order, with values in [lo, hi) and no empty count. */
  ghost predicate Ordered(t: Tree, lo: nat, hi: nat) {
    t.Node? ==> lo <= t.value < hi && 0 < t.count && Ordered(t.left, lo, t.value) && Ordered(t.right, t.value + 1, hi)
  }

  /** Every symbol is stored once, and before the symbols below it. */
  ghost predicate Descending(t: Tree) {
    t.Node? ==>
      && Descending(t.left) && Descending(t.right)
      && (forall j :: j in Nodes(t.left) ==> t.at < j) && (forall j :: j in Nodes(t.right) ==> t.at < j)
      && Nodes(t.left) !! Nodes(t.right)
  }

  /** The links and sums stored at symbol i and below are those of t. */
  ghost predicate Represents(s: seq<Symbol>, i: nat, t: Tree)
    decreases t
  {
    && t.Node? && i < |s| && t.at == i && s[i].value == t.value && s[i].count == t.count
    && s[i].under == t.count + Weight(t.left)
    && (if s[i].left == 0 then t.left == Nil else Represents(s, i + s[i].left, t.left))
    && (if s[i].right == 0 then t.right == Nil else Represents(s, i + s[i].right, t.right))
  }

  /** The tree that hangs off symbol i at a possibly absent offset. */
  ghost predicate Hangs(s: seq<Symbol>, i: nat, offset: nat, t: Tree) {
    if offset == 0 then t == Nil else Represents(s, i + offset, t)
  }

  /** The tree after `update` was added to the count of v, which takes symbol `spare` if it is new. */
  function Insert(t: Tree, v: Byte, update: nat, spare: nat): Tree {
    if t == Nil then Node(spare, v, update, Nil, Nil)
    else if v < t.value then t.(left := Insert(t.left, v, update, spare))
    else if v > t.value then t.(right := Insert(t.right, v, update, spare))
    else t.(count := t.count + update)
  }

  function Halved(t: Tree): Tree {
    if t == Nil then Nil else Node(t.at, t.value, Halve(t.count), Halved(t.left), Halved(t.right))
  }

  /** The symbol that holds value v. */
  function Find(t: Tree, v: nat): nat
    requires CountIn(t, v) > 0
  {
    if v < t.value then Find(t.left, v) else if v > t.value then Find(t.right, v) else t.at
  }

  // ---- Sums over trees ----

  lemma {:induction false} BeforeEnds(t: Tree, lo: nat, hi: nat, v: nat)
    requires Ordered(t, lo, hi)
    ensures v <= lo ==> Before(t, v) == 0
    ensures hi <= v ==> Before(t, v) == Weight(t)
    ensures !(lo <= v < hi) ==> CountIn(t, v) == 0
  {
    if t.Node? {
      BeforeEnds(t.left, lo, t.value, v);
      BeforeEnds(t.right, t.value + 1, hi, v);
    }
  }

  lemma {:induction false} BeforeStep(t: Tree, lo: nat, hi: nat, v: nat)
    requires Ordered(t, lo, hi)
    ensures Before(t, v + 1) == Before(t, v) + CountIn(t, v)
  {
    if t.Node? {
      BeforeStep(t.left, lo, t.value, v);
      BeforeStep(t.right, t.value + 1, hi, v);
      BeforeEnds(t.left, lo, t.value, v);
      BeforeEnds(t.right, t.value + 1, hi, v + 1);
    }
  }

  /** The sums kept in the tree are the cumulative counts of the context. */
  lemma {:induction false} BeforeIsBelow(t: Tree, counts: seq<nat>, v: nat)
    requires Ordered(t, 0, 256) && |counts| == 256 && v <= 256
    requires forall w :: 0 <= w < 256 ==> counts[w] == CountIn(t, w)
    ensures Before(t, v) == Below(counts, v)
    ensures v == 256 ==> Weight(t) == Below(counts, v)
  {
    BeforeEnds(t, 0, 256, v);
    if v > 0 {
      BeforeIsBelow(t, counts, v - 1);
      BeforeStep(t, 0, 256, v - 1);
    }
  }

  lemma {:induction false} InsertSpec(t: Tree, lo: nat, hi: nat, v: Byte, update: nat, spare: nat)
    requires Ordered(t, lo, hi) && lo <= v < hi && 0 < update
    ensures var u := Insert(t, v, update, spare);
            && Ordered(u, lo, hi) && Weight(u) == Weight(t) + update
            && CountIn(u, v) == CountIn(t, v) + update
            && (forall w :: w != v ==> CountIn(u, w) == CountIn(t, w))
  {
    if t.Node? {
      if v < t.value {
        InsertSpec(t.left, lo, t.value, v, update, spare);
      } else if v > t.value {
        InsertSpec(t.right, t.value + 1, hi, v, update, spare);
      }
    }
  }

  lemma {:induction false} InsertNodes(t: Tree, lo: nat, hi: nat, v: Byte, update: nat, spare: nat)
    requires Ordered(t, lo, hi) && lo <= v < hi && 0 < update
    ensures var u := Insert(t, v, update, spare);
            && Nodes(u) == Nodes(t) + (if CountIn(t, v) == 0 then {spare} else {})
            && CountIn(u, v) > 0 && Find(u, v) == (if CountIn(t, v) == 0 then spare else Find(t, v))
  {
    if t.Node? {
      if v < t.value {
        InsertNodes(t.left, lo, t.value, v, update, spare);
      } else if v > t.value {
        InsertNodes(t.right, t.value + 1, hi, v, update, spare);
      }
    }
  }

  lemma {:induction false} InsertDescends(t: Tree, lo: nat, hi: nat, v: Byte, update: nat, spare: nat)
    requires Ordered(t, lo, hi) && lo <= v < hi && 0 < update
    requires Descending(t) && forall j :: j in Nodes(t) ==> j < spare
    ensures Descending(Insert(t, v, update, spare))
  {
    InsertNodes(t, lo, hi, v, update, spare);
    if t.Node? {
      assert Nodes(t.left) <= Nodes(t) && Nodes(t.right) <= Nodes(t) && t.at in Nodes(t);
      if v < t.value {
        InsertDescends(t.left, lo, t.value, v, update, spare);
        InsertNodes(t.left, lo, t.value, v, update, spare);
      } else if v > t.value {
        InsertDescends(t.right, t.value + 1, hi, v, update, spare);
        InsertNodes(t.right, t.value + 1, hi, v, update, spare);
      }
    }
  }

  lemma {:induction false} HalvedSpec(t: Tree, lo: nat, hi: nat)
    requires Ordered(t, lo, hi)
    ensures var u := Halved(t);
            && Ordered(u, lo, hi) && Nodes(u) == Nodes(t) && (Descending(t) ==> Descending(u))
            && (forall w :: CountIn(u, w) == Halve(CountIn(t, w)))
            && (forall w :: CountIn(t, w) > 0 ==> Find(u, w) == Find(t, w))
  {
    if t.Node? {
      HalvedSpec(t.left, lo, t.value);
      HalvedSpec(t.right, t.value + 1, hi);
    }
  }

  // ---- Frames ----

  /** The same node of the tree, whatever happened to it as a context. */
  ghost predicate SameNode(x: Symbol, y: Symbol) {
    x.value == y.value && x.count == y.count && x.under == y.under && x.left == y.left && x.right == y.right
  }

  /** The same context, whatever happened to it as a node. */
  ghost predicate SameContext(x: Symbol, y: Symbol) {
    x.value == y.value && x.symbols == y.symbols && x.escapes == y.escapes && x.total == y.total && x.parent == y.parent
  }

  lemma {:induction false} RepresentsFrame(s: seq<Symbol>, s': seq<Symbol>, i: nat, t: Tree)
    requires Represents(s, i, t) && |s| == |s'|
    requires forall j :: j in Nodes(t) && j < |s| ==> SameNode(s[j], s'[j])
    ensures Represents(s', i, t)
    decreases t
  {
    assert i in Nodes(t);
    assert SameNode(s[i], s'[i]);
    if s[i].left != 0 {
      RepresentsFrame(s, s', i + s[i].left, t.left);
    }
    if s[i].right != 0 {
      RepresentsFrame(s, s', i + s[i].right, t.right);
    }
  }

  lemma {:induction false} NodesStored(s: seq<Symbol>, i: nat, t: Tree)
    requires Represents(s, i, t)
    ensures forall j :: j in Nodes(t) ==> i <= j < |s|
    ensures Descending(t) ==> forall j :: j in Nodes(t.left) + Nodes(t.right) ==> i < j
    decreases t
  {
    if s[i].left != 0 {
      NodesStored(s, i + s[i].left, t.left);
    }
    if s[i].right != 0 {
      NodesStored(s, i + s[i].right, t.right);
    }
  }

  /** Only the named symbols changed, and those only as nodes of a tree. */
  ghost predicate OnlyNodesChanged(s: seq<Symbol>, s': seq<Symbol>, nodes: set<nat>) {
    && |s| == |s'|
    && forall j :: 0 <= j < |s| ==> if j in nodes then SameContext(s[j], s'[j]) else s[j] == s'[j]
  }

  // ---- The encoder's search ----

  /** The table after a search, the symbol reached, what was added to `under`, and the count found. */
  datatype Walk = Walk(s: seq<Symbol>, symbol: nat, under: int, count: nat)

  /** The loop of `ENET_CONTEXT_ENCODE`: adds `update` along the way to v, creating it at `next` if need be. */
  function EncodeWalk(s: seq<Symbol>, node: nat, v: Byte, update: nat, next: nat, under: int): (w: Walk)
    requires node < next < |s|
    ensures |w.s| == |s|
    decreases next - node
  {
    var n := s[node];
    if v < n.value then
      var s1 := s[node := n.(under := n.under + update)];
      if n.left != 0 && node + n.left < next then EncodeWalk(s1, node + n.left, v, update, next, under)
      else
        var s2 := s1[next := NewSymbol(v, update)];
        Walk(s2[node := s2[node].(left := next - node)], next, under, 0)
    else if v > n.value then
      if n.right != 0 && node + n.right < next then EncodeWalk(s, node + n.right, v, update, next, under + n.under)
      else
        var s2 := s[next := NewSymbol(v, update)];
        Walk(s2[node := s2[node].(right := next - node)], next, under + n.under, 0)
    else
      Walk(s[node := n.(under := n.under + update, count := n.count + update)], node, under + n.under - n.count, n.count)
  }

  /** What a search for v may touch: the nodes of the tree, as nodes, and the symbol it creates. */
  ghost predicate WalkFrame(s: seq<Symbol>, s': seq<Symbol>, t: Tree, v: Byte, update: nat, next: nat) {
    && |s| == |s'|
    && forall j :: 0 <= j < |s| ==>
         if j in Nodes(t) then SameContext(s[j], s'[j])
         else if j == next && CountIn(t, v) == 0 then s'[j] == NewSymbol(v, update)
         else s'[j] == s[j]
  }

  ghost predicate Inserted(w: Walk, s: seq<Symbol>, i: nat, t: Tree, v: Byte, update: nat, next: nat, under: int) {
    && Represents(w.s, i, Insert(t, v, update, next)) && WalkFrame(s, w.s, t, v, update, next)
    && w.under == under + Before(t, v) && w.count == CountIn(t, v)
    && w.symbol == if CountIn(t, v) == 0 then next else Find(t, v)
  }

  /** The symbols of the tree come before `next`. */
  ghost predicate Roomy(t: Tree, next: nat) {
    Descending(t) && forall j :: j in Nodes(t) ==> j < next
  }

  /** The parts of a tree keep to different symbols. */
  lemma {:induction false} Apart(s: seq<Symbol>, i: nat, t: Tree, next: nat)
    requires Represents(s, i, t) && Roomy(t, next)
    ensures i < next && next !in Nodes(t) && i in Nodes(t) && i !in Nodes(t.left) && i !in Nodes(t.right)
    ensures Nodes(t.left) <= Nodes(t) && Nodes(t.right) <= Nodes(t) && Nodes(t.left) !! Nodes(t.right)
    ensures Roomy(t.left, next) && Roomy(t.right, next)
    ensures s[i].left != 0 ==> i + s[i].left in Nodes(t)
    ensures s[i].right != 0 ==> i + s[i].right in Nodes(t)
  {
    assert t.at in Nodes(t);
    assert t.left.Node? ==> t.left.at in Nodes(t.left);
    assert t.right.Node? ==> t.right.at in Nodes(t.right);
  }

  /** The search adds `update` to v in the tree and returns its old count and cumulative count. */
  lemma {:induction false} EncodeWalkInserts(s: seq<Symbol>, i: nat, t: Tree, lo: nat, hi: nat, v: Byte, update: nat, next: nat, under: int)
    requires Represents(s, i, t) && Ordered(t, lo, hi) && lo <= v < hi && Roomy(t, next) && next < |s| && 0 < update
    ensures i < next && Inserted(EncodeWalk(s, i, v, update, next, under), s, i, t, v, update, next, under)
    decreases t
  {
    hide Inserted, Descending, Before, Weight, CountIn;
    Apart(s, i, t, next);
    var w := EncodeWalk(s, i, v, update, next, under);
    if v < t.value && s[i].left != 0 {
      var s1 := s[i := s[i].(under := s[i].under + update)];
      RepresentsFrame(s, s1, i + s[i].left, t.left);
      EncodeWalkInserts(s1, i + s[i].left, t.left, lo, t.value, v, update, next, under);
      InsertSpec(t.left, lo, t.value, v, update, next);
      InsertsLeft(s, s1, w, i, t, v, update, next, under);
    } else if v > t.value && s[i].right != 0 {
      EncodeWalkInserts(s, i + s[i].right, t.right, t.value + 1, hi, v, update, next, under + s[i].under);
      InsertsRight(s, w, i, t, v, update, next, under);
    } else if v == t.value {
      InsertsHere(s, i, t, lo, hi, update, next, under);
    } else {
      InsertsBelow(s, i, t, v, update, next, under);
    }
  }

  /** What a search in a child's tree may touch is part of what one in the whole tree may. */
  lemma {:induction false} WalkFrameOfChild(s: seq<Symbol>, s1: seq<Symbol>, s': seq<Symbol>, i: nat, t: Tree, child: Tree, v: Byte, update: nat, next: nat)
    requires WalkFrame(s1, s', child, v, update, next) && OnlyNodesChanged(s, s1, {i})
    requires Nodes(child) <= Nodes(t) && i in Nodes(t) && CountIn(t, v) == CountIn(child, v)
    requires next !in Nodes(t)
    ensures WalkFrame(s, s', t, v, update, next)
  {
    hide Nodes, CountIn;
  }

  /** The tree of the other child is as it was. */
  lemma {:induction false} WalkSpares(s: seq<Symbol>, s1: seq<Symbol>, s': seq<Symbol>, i: nat, child: Tree, v: Byte, update: nat, next: nat, root: nat, other: Tree)
    requires WalkFrame(s1, s', child, v, update, next) && OnlyNodesChanged(s, s1, {i})
    requires Represents(s, root, other) && Nodes(other) !! Nodes(child) && i !in Nodes(other) && next !in Nodes(other)
    ensures Represents(s', root, other)
  {
    forall j | j in Nodes(other) && j < |s| ensures SameNode(s[j], s'[j]) {
      assert s'[j] == s[j];
    }
    RepresentsFrame(s, s', root, other);
  }

  /** The search went left, and did there what it should. */
  lemma {:induction false} InsertsLeft(s: seq<Symbol>, s1: seq<Symbol>, w: Walk, i: nat, t: Tree, v: Byte, update: nat, next: nat, under: int)
    requires Represents(s, i, t) && Roomy(t, next) && v < t.value && s[i].left != 0
    requires s1 == s[i := s[i].(under := s[i].under + update)]
    requires Weight(Insert(t.left, v, update, next)) == Weight(t.left) + update
    requires Inserted(w, s1, i + s[i].left, t.left, v, update, next, under)
    ensures Inserted(w, s, i, t, v, update, next, under)
  {
    hide Roomy, Weight, Nodes, WalkFrame;
    assert WalkFrame(s, w.s, t, v, update, next) by {
      Apart(s, i, t, next);
      WalkFrameOfChild(s, s1, w.s, i, t, t.left, v, update, next);
    }
    assert s[i].right != 0 ==> Represents(w.s, i + s[i].right, t.right) by {
      Apart(s, i, t, next);
      if s[i].right != 0 {
        WalkSpares(s, s1, w.s, i, t.left, v, update, next, i + s[i].right, t.right);
      }
    }
    assert w.s[i] == s1[i] by {
      Apart(s, i, t, next);
      WalkKeeps(s1, w.s, t.left, v, update, next, i);
    }
  }

  lemma {:induction false} WalkKeeps(s: seq<Symbol>, s': seq<Symbol>, t: Tree, v: Byte, update: nat, next: nat, i: nat)
    requires WalkFrame(s, s', t, v, update, next) && i < |s| && i !in Nodes(t) && i != next
    ensures s'[i] == s[i]
  {
  }

  lemma {:induction false} InsertsRight(s: seq<Symbol>, w: Walk, i: nat, t: Tree, v: Byte, update: nat, next: nat, under: int)
    requires Represents(s, i, t) && Roomy(t, next) && v > t.value && s[i].right != 0
    requires Inserted(w, s, i + s[i].right, t.right, v, update, next, under + s[i].under)
    ensures Inserted(w, s, i, t, v, update, next, under)
  {
    hide Roomy, Weight, Nodes, WalkFrame;
    assert WalkFrame(s, w.s, t, v, update, next) by {
      Apart(s, i, t, next);
      WalkFrameOfChild(s, s, w.s, i, t, t.right, v, update, next);
    }
    assert s[i].left != 0 ==> Represents(w.s, i + s[i].left, t.left) by {
      Apart(s, i, t, next);
      if s[i].left != 0 {
        WalkSpares(s, s, w.s, i, t.right, v, update, next, i + s[i].left, t.left);
      }
    }
    assert w.s[i] == s[i] by {
      Apart(s, i, t, next);
      WalkKeeps(s, w.s, t.right, v, update, next, i);
    }
  }

  /** The search found v. */
  lemma {:induction false} InsertsHere(s: seq<Symbol>, i: nat, t: Tree, lo: nat, hi: nat, update: nat, next: nat, under: int)
    requires Represents(s, i, t) && Roomy(t, next) && i < next < |s| && Ordered(t, lo, hi)
    ensures Inserted(EncodeWalk(s, i, t.value, update, next, under), s, i, t, t.value, update, next, under)
  {
    hide Roomy, Nodes, WalkFrame;
    BeforeEnds(t.left, lo, t.value, t.value);
    assert 0 < CountIn(t, t.value);
    var w := EncodeWalk(s, i, t.value, update, next, under);
    SparesChildren(s, w.s, i, t, next);
    TopFrame(s, w.s, i, t, t.value, update, next);
    hide Ordered, Before;
    assert Represents(w.s, i, Insert(t, t.value, update, next));
  }

  /** Changing the top symbol, or creating one, leaves the trees of both children as they were. */
  lemma {:induction false} SparesChildren(s: seq<Symbol>, s': seq<Symbol>, i: nat, t: Tree, next: nat)
    requires Represents(s, i, t) && Roomy(t, next)
    requires |s'| == |s| && forall j :: 0 <= j < |s| && j != i && j != next ==> s'[j] == s[j]
    ensures s[i].left != 0 ==> Represents(s', i + s[i].left, t.left)
    ensures s[i].right != 0 ==> Represents(s', i + s[i].right, t.right)
  {
    Apart(s, i, t, next);
    hide Roomy, Nodes;
    if s[i].left != 0 {
      RepresentsFrame(s, s', i + s[i].left, t.left);
    }
    if s[i].right != 0 {
      RepresentsFrame(s, s', i + s[i].right, t.right);
    }
  }

  lemma {:induction false} TopFrame(s: seq<Symbol>, s': seq<Symbol>, i: nat, t: Tree, v: Byte, update: nat, next: nat)
    requires Represents(s, i, t) && Roomy(t, next) && next < |s|
    requires |s'| == |s| && (forall j :: 0 <= j < |s| && j != i && j != next ==> s'[j] == s[j])
    requires i < |s| && SameContext(s[i], s'[i])
    requires s'[next] == if CountIn(t, v) == 0 then NewSymbol(v, update) else s[next]
    ensures WalkFrame(s, s', t, v, update, next)
  {
    Apart(s, i, t, next);
    hide Roomy, Nodes, CountIn;
  }

  /** The search came to an end: v is created as a child. */
  lemma {:induction false} InsertsBelow(s: seq<Symbol>, i: nat, t: Tree, v: Byte, update: nat, next: nat, under: int)
    requires Represents(s, i, t) && Roomy(t, next) && i < next < |s|
    requires (v < t.value && s[i].left == 0) || (v > t.value && s[i].right == 0)
    ensures Inserted(EncodeWalk(s, i, v, update, next, under), s, i, t, v, update, next, under)
  {
    hide Roomy, Nodes, WalkFrame;
    var w := EncodeWalk(s, i, v, update, next, under);
    assert CountIn(t, v) == 0 && w.symbol == next && w.count == 0;
    assert w.under == under + Before(t, v);
    SparesChildren(s, w.s, i, t, next);
    TopFrame(s, w.s, i, t, v, update, next);
    hide Before, CountIn;
    var leaf, u := Node(next, v, update, Nil, Nil), Insert(t, v, update, next);
    assert Represents(w.s, next, leaf);
    assert Insert(Nil, v, update, next) == leaf && Weight(leaf) == update;
    assert w.s[i].under == u.count + Weight(u.left);
    assert if v < t.value then u.left == leaf && u.right == t.right else u.right == leaf && u.left == t.left;
    assert Represents(w.s, i, u);
  }

  // ---- The decoder's search ----

  datatype Search = Hit(value: Byte, walk: Walk) | Miss

  /** The loop of `ENET_CONTEXT_DECODE`: by cumulative count instead of by value. Only the root, with
      minimum 1, creates a symbol for a value it meets for the first time; elsewhere that is a miss. */
  function DecodeWalk(s: seq<Symbol>, node: nat, code: nat, minimum: nat, update: nat, next: nat, under: nat): Search
    requires node < next < |s|
    decreases next - node
  {
    var n := s[node];
    var after, before := under + n.under + (n.value + 1) * minimum, n.count + minimum;
    if code >= after then
      if n.right != 0 && node + n.right < next then
        DecodeWalk(s, node + n.right, code, minimum, update, next, under + n.under)
      else if minimum == 0 then Miss
      else
        var v := (n.value + 1 + (code - after) / minimum) % 256;
        var s2 := s[next := NewSymbol(v, update)];
        Hit(v, Walk(s2[node := s2[node].(right := next - node)], next, code - (code - after) % minimum, 0))
    else if code < after - before then
      var s1 := s[node := n.(under := n.under + update)];
      if n.left != 0 && node + n.left < next then
        DecodeWalk(s1, node + n.left, code, minimum, update, next, under)
      else if minimum == 0 then Miss
      else
        var v := (n.value - 1 - (after - before - code - 1) / minimum) % 256;
        var s2 := s1[next := NewSymbol(v, update)];
        Hit(v, Walk(s2[node := s2[node].(left := next - node)], next, code - (after - before - code - 1) % minimum, 0))
    else
      Hit(n.value, Walk(s[node := n.(under := n.under + update, count := n.count + update)], node, after - before, n.count))
  }

  /** Part `code` lies in the slot of v in tree t, after `under` parts. */
  ghost predicate InSlot(t: Tree, v: Byte, code: nat, minimum: nat, under: nat) {
    if minimum == 0 then under + Before(t, v) <= code < under + Before(t, v) + CountIn(t, v)
    else minimum == 1 && under + v + Before(t, v) <= code < under + v + 1 + Before(t, v) + CountIn(t, v)
  }

  /** Given any part of the slot of v, the decoder's search ends where the encoder's search for v does,
      with the same table, symbol, cumulative count and count, whether v was known before or not. */
  lemma {:induction false} DecodeWalkAgrees(s: seq<Symbol>, i: nat, t: Tree, lo: nat, hi: nat, v: Byte,
                                            code: nat, minimum: nat, update: nat, next: nat, under: nat)
    requires Represents(s, i, t) && Ordered(t, lo, hi) && lo <= v < hi && Roomy(t, next) && next < |s|
    requires InSlot(t, v, code, minimum, under) && minimum <= 1
    ensures i < next
    ensures DecodeWalk(s, i, code, minimum, update, next, under)
         == Hit(v, EncodeWalk(s, i, v, update, next, under + v * minimum))
    decreases t
  {
    hide DecodeWalk, EncodeWalk, Nodes, Roomy, Before, CountIn;
    Apart(s, i, t, next);
    if v < t.value {
      DecodesLeft(s, i, t, lo, hi, v, code, minimum, under);
      DecodeUnfolds(s, i, v, code, minimum, update, next, under);
      if s[i].left != 0 {
        var s1 := s[i := s[i].(under := s[i].under + update)];
        assert Represents(s1, i + s[i].left, t.left) by { RepresentsFrame(s, s1, i + s[i].left, t.left); }
        DecodeWalkAgrees(s1, i + s[i].left, t.left, lo, t.value, v, code, minimum, update, next, under);
      }
    } else if v > t.value {
      DecodesRight(s, i, t, lo, hi, v, code, minimum, under);
      DecodeUnfolds(s, i, v, code, minimum, update, next, under);
      if s[i].right != 0 {
        DecodeWalkAgrees(s, i + s[i].right, t.right, t.value + 1, hi, v, code, minimum, update, next, under + s[i].under);
      }
    } else {
      DecodesHere(s, i, t, lo, hi, code, minimum, under);
      DecodeUnfolds(s, i, v, code, minimum, update, next, under);
    }
  }

  /** One step of both searches side by side. */
  lemma {:induction false} DecodeUnfolds(s: seq<Symbol>, i: nat, v: Byte, code: nat, minimum: nat, update: nat, next: nat, under: nat)
    requires i < next < |s| && minimum <= 1
    requires var after := under + s[i].under + (s[i].value + 1) * minimum;
             && (v < s[i].value ==> code < after - s[i].count - minimum && (s[i].left == 0 ==> minimum == 1 && code == under + v && s[i].under == s[i].count))
             && (v > s[i].value ==> code >= after && (s[i].right == 0 ==> minimum == 1 && code == under + s[i].under + v))
             && (v == s[i].value ==> after - s[i].count - minimum <= code < after)
    ensures var n, x := s[i], under + v * minimum;
            var d, e := DecodeWalk(s, i, code, minimum, update, next, under), EncodeWalk(s, i, v, update, next, x);
            var s1 := s[i := n.(under := n.under + update)];
            if v < n.value && n.left != 0 && i + n.left < next then
              d == DecodeWalk(s1, i + n.left, code, minimum, update, next, under) && e == EncodeWalk(s1, i + n.left, v, update, next, x)
            else if v > n.value && n.right != 0 && i + n.right < next then
              d == DecodeWalk(s, i + n.right, code, minimum, update, next, under + n.under) && e == EncodeWalk(s, i + n.right, v, update, next, x + n.under)
            else (v < n.value ==> n.left == 0) && (v > n.value ==> n.right == 0) ==> d == Hit(v, e)
  {
    assert forall n: int :: n / 1 == n && n % 1 == 0;
    assert v * minimum == if minimum == 0 then 0 else v;
  }

  lemma {:induction false} DecodesHere(s: seq<Symbol>, i: nat, t: Tree, lo: nat, hi: nat, code: nat, minimum: nat, under: nat)
    requires Represents(s, i, t) && Ordered(t, lo, hi) && InSlot(t, t.value, code, minimum, under)
    ensures var after := under + s[i].under + (t.value + 1) * minimum; after - s[i].count - minimum <= code < after
  {
    BeforeEnds(t.left, lo, t.value, t.value);
  }

  lemma {:induction false} DecodesLeft(s: seq<Symbol>, i: nat, t: Tree, lo: nat, hi: nat, v: Byte, code: nat, minimum: nat, under: nat)
    requires Represents(s, i, t) && Ordered(t, lo, hi) && v < t.value && InSlot(t, v, code, minimum, under)
    ensures code < under + s[i].under + (t.value + 1) * minimum - s[i].count - minimum
    ensures InSlot(t.left, v, code, minimum, under)
    ensures s[i].left == 0 ==> minimum == 1 && code == under + v && s[i].under == s[i].count
  {
    assert (t.value + 1) * minimum == (if minimum == 0 then 0 else t.value + 1);
    assert v * minimum == (if minimum == 0 then 0 else v);
    BeforeAtMost(t.left, lo, t.value, v);
  }

  lemma {:induction false} DecodesRight(s: seq<Symbol>, i: nat, t: Tree, lo: nat, hi: nat, v: Byte, code: nat, minimum: nat, under: nat)
    requires Represents(s, i, t) && Ordered(t, lo, hi) && v > t.value && InSlot(t, v, code, minimum, under)
    ensures code >= under + s[i].under + (t.value + 1) * minimum
    ensures InSlot(t.right, v, code, minimum, under + s[i].under)
    ensures s[i].right == 0 ==> minimum == 1 && code == under + s[i].under + v
  {
    assert (t.value + 1) * minimum == (if minimum == 0 then 0 else t.value + 1);
    assert v * minimum == (if minimum == 0 then 0 else v);
  }

  lemma {:induction false} BeforeAtMost(t: Tree, lo: nat, hi: nat, v: nat)
    requires Ordered(t, lo, hi)
    ensures Before(t, v) + CountIn(t, v) <= Weight(t)
  {
    if t.Node? {
      BeforeAtMost(t.left, lo, t.value, v);
      BeforeAtMost(t.right, t.value + 1, hi, v);
    }
  }

  /** A code past every slot runs off the right end of the tree. */
  lemma {:induction false} DecodeWalkMisses(s: seq<Symbol>, i: nat, t: Tree, code: nat, update: nat, next: nat, under: nat)
    requires Represents(s, i, t) && Roomy(t, next) && next < |s| && under + Weight(t) <= code
    ensures i < next
    ensures DecodeWalk(s, i, code, 0, update, next, under) == Miss
    decreases t
  {
    Apart(s, i, t, next);
    if s[i].right != 0 {
      DecodeWalkMisses(s, i + s[i].right, t.right, code, update, next, under + s[i].under);
    }
  }

  // ---- Rescaling ----

  /** `enet_symbol_rescale`: recursion into the left trees, iteration along the right ones. */
  function RescaleFrom(s: seq<Symbol>, i: nat, total: nat): (r: (seq<Symbol>, nat))
    requires i < |s|
    ensures |r.0| == |s|
    decreases |s| - i, 2
  {
    var s2 := RescaledAt(s, i);
    if s[i].right != 0 && i + s[i].right < |s| then RescaleFrom(s2, i + s[i].right, total + s2[i].under)
    else (s2, total + s2[i].under)
  }

  /** One symbol of a right spine together with its left tree. */
  function RescaledAt(s: seq<Symbol>, i: nat): (r: seq<Symbol>)
    requires i < |s|
    ensures |r| == |s|
    decreases |s| - i, 1
  {
    var left := RescaledLeft(s, i);
    left.0[i := left.0[i].(under := left.0[i].under + left.1)]
  }

  function HalvedAt(s: seq<Symbol>, i: nat): (r: seq<Symbol>)
    requires i < |s|
    ensures |r| == |s|
  {
    s[i := s[i].(count := Halve(s[i].count), under := Halve(s[i].count))]
  }

  function RescaledLeft(s: seq<Symbol>, i: nat): (r: (seq<Symbol>, nat))
    requires i < |s|
    ensures |r.0| == |s|
    decreases |s| - i, 0
  {
    if s[i].left != 0 && i + s[i].left < |s| then RescaleFrom(HalvedAt(s, i), i + s[i].left, 0) else (HalvedAt(s, i), 0)
  }

  ghost predicate IsRescaled(r: (seq<Symbol>, nat), s: seq<Symbol>, i: nat, t: Tree, total: nat) {
    Represents(r.0, i, Halved(t)) && r.1 == total + Weight(Halved(t)) && OnlyNodesChanged(s, r.0, Nodes(t))
  }

  /** Rescaling halves every count of the tree, rounding up, and recomputes every sum. */
  lemma {:induction false} RescaleHalves(s: seq<Symbol>, i: nat, t: Tree, total: nat)
    requires Represents(s, i, t) && Descending(t) && i < |s|
    ensures IsRescaled(RescaleFrom(s, i, total), s, i, t, total)
    decreases t
  {
    hide Nodes, Weight, Descending, IsRescaled, OnlyNodesChanged, HalfRescaled, RescaleFrom, RescaledAt, RescaledLeft, HalvedAt, Represents;
    HalvesApart(s, i, t);
    if s[i].left != 0 {
      HalvedFrame(s, i, t);
      RescaleHalves(HalvedAt(s, i), i + s[i].left, t.left, 0);
    }
    LeftIsRescaled(s, i, t);
    var s2 := RescaledAt(s, i);
    HalfRescaledRight(s, s2, i, t);
    if s[i].right != 0 {
      RescaleHalves(s2, i + s[i].right, t.right, total + s2[i].under);
    }
    RightUnfolds(s, i, total);
    RightIsRescaled(s, s2, RescaleFrom(s, i, total), i, t, total);
  }

  lemma {:induction false} RightUnfolds(s: seq<Symbol>, i: nat, total: nat)
    requires i < |s| && (s[i].right != 0 ==> i + s[i].right < |s|)
    ensures var s2 := RescaledAt(s, i);
            RescaleFrom(s, i, total) == if s[i].right != 0 then RescaleFrom(s2, i + s[i].right, total + s2[i].under) else (s2, total + s2[i].under)
  {
  }

  lemma {:induction false} HalvedFrame(s: seq<Symbol>, i: nat, t: Tree)
    requires Represents(s, i, t) && Descending(t) && i < |s| && s[i].left != 0
    ensures Represents(HalvedAt(s, i), i + s[i].left, t.left)
  {
    HalvesApart(s, i, t);
    hide Nodes;
    RepresentsFrame(s, HalvedAt(s, i), i + s[i].left, t.left);
  }

  lemma {:induction false} HalvesApart(s: seq<Symbol>, i: nat, t: Tree)
    requires Represents(s, i, t) && Descending(t)
    ensures t.Node? && Descending(t.left) && Descending(t.right)
    ensures i !in Nodes(t.left) && i !in Nodes(t.right) && Nodes(t.left) !! Nodes(t.right)
    ensures Nodes(t) == {i} + Nodes(t.left) + Nodes(t.right)
    ensures s[i].left != 0 ==> i + s[i].left < |s|
    ensures s[i].right != 0 ==> i + s[i].right < |s|
    ensures s[i].right == 0 ==> Nodes(t.right) == {} && Weight(Halved(t.right)) == 0
    ensures s[i].left == 0 ==> Nodes(t.left) == {} && Weight(Halved(t.left)) == 0
  {
  }

  /** After the left tree and the top symbol, the right tree is still to be done. */
  ghost predicate HalfRescaled(s: seq<Symbol>, s2: seq<Symbol>, i: nat, t: Tree) {
    && |s2| == |s| && i < |s| && t.Node? && OnlyNodesChanged(s, s2, {i} + Nodes(t.left))
    && s2[i] == s[i].(count := Halve(t.count), under := Halve(t.count) + Weight(Halved(t.left)))
    && (s[i].left != 0 ==> Represents(s2, i + s[i].left, Halved(t.left)))
    && (s[i].right != 0 ==> Represents(s2, i + s[i].right, t.right))
  }

  lemma {:induction false} HalfRescaledRight(s: seq<Symbol>, s2: seq<Symbol>, i: nat, t: Tree)
    requires HalfRescaled(s, s2, i, t)
    ensures |s2| == |s| && i < |s|
    ensures s[i].right != 0 ==> Represents(s2, i + s[i].right, t.right)
  {
  }

  lemma {:induction false} LeftIsRescaled(s: seq<Symbol>, i: nat, t: Tree)
    requires Represents(s, i, t) && Descending(t) && i < |s|
    requires s[i].left != 0 ==>
               && i + s[i].left < |s|
               && IsRescaled(RescaleFrom(HalvedAt(s, i), i + s[i].left, 0), HalvedAt(s, i), i + s[i].left, t.left, 0)
    ensures HalfRescaled(s, RescaledAt(s, i), i, t)
  {
    hide Nodes, Weight, Descending, OnlyNodesChanged, RescaleFrom, HalfRescaled;
    var s1, left, s2 := HalvedAt(s, i), RescaledLeft(s, i), RescaledAt(s, i);
    assert s1 == s[i := s[i].(count := Halve(t.count), under := Halve(t.count))];
    assert if s[i].left != 0 then IsRescaled(left, s1, i + s[i].left, t.left, 0) else left == (s1, 0);
    hide RescaledLeft, RescaledAt, HalvedAt;
    LeftFrame(s, s1, left, s2, i, t);
    LeftRepresents(s, left, s2, i, t);
    assert HalfRescaled(s, s2, i, t) by { hide Represents; HalfIs(s, s2, i, t); }
  }

  lemma {:induction false} HalfIs(s: seq<Symbol>, s2: seq<Symbol>, i: nat, t: Tree)
    requires |s2| == |s| && i < |s| && t.Node? && OnlyNodesChanged(s, s2, {i} + Nodes(t.left))
    requires s2[i] == s[i].(count := Halve(t.count), under := Halve(t.count) + Weight(Halved(t.left)))
    requires s[i].left != 0 ==> Represents(s2, i + s[i].left, Halved(t.left))
    requires s[i].right != 0 ==> Represents(s2, i + s[i].right, t.right)
    ensures HalfRescaled(s, s2, i, t)
  {
  }

  lemma {:induction false} LeftFrame(s: seq<Symbol>, s1: seq<Symbol>, left: (seq<Symbol>, nat), s2: seq<Symbol>, i: nat, t: Tree)
    requires Represents(s, i, t) && Descending(t) && i < |s|
    requires s1 == s[i := s[i].(count := Halve(t.count), under := Halve(t.count))]
    requires if s[i].left != 0 then IsRescaled(left, s1, i + s[i].left, t.left, 0) else left == (s1, 0)
    requires |left.0| == |s| && s2 == left.0[i := left.0[i].(under := left.0[i].under + left.1)]
    ensures OnlyNodesChanged(s, s2, {i} + Nodes(t.left)) && OnlyNodesChanged(left.0, s2, {i})
    ensures s2[i] == s[i].(count := Halve(t.count), under := Halve(t.count) + Weight(Halved(t.left)))
  {
    HalvesApart(s, i, t);
    hide Nodes, Weight, Descending, OnlyNodesChanged, Represents;
    OnlyTheseChanged(s1, left.0, Nodes(t.left), s[i].left == 0);
    OthersKept(s1, left.0, Nodes(t.left), i);
    OnlyTopChanged(s, s1, i);
    ChangedTwice(s, s1, left.0, {i}, Nodes(t.left));
    OnlyTopChanged(left.0, s2, i);
    ChangedTwice(s, left.0, s2, {i} + Nodes(t.left), {i});
    assert {i} + Nodes(t.left) + {i} == {i} + Nodes(t.left);
  }

  lemma {:induction false} LeftRepresents(s: seq<Symbol>, left: (seq<Symbol>, nat), s2: seq<Symbol>, i: nat, t: Tree)
    requires Represents(s, i, t) && Descending(t) && i < |s|
    requires OnlyNodesChanged(s, s2, {i} + Nodes(t.left)) && OnlyNodesChanged(left.0, s2, {i})
    requires s[i].left != 0 ==> Represents(left.0, i + s[i].left, Halved(t.left))
    ensures s[i].left != 0 ==> Represents(s2, i + s[i].left, Halved(t.left))
    ensures s[i].right != 0 ==> Represents(s2, i + s[i].right, t.right)
  {
    hide Nodes, Weight, Descending, OnlyNodesChanged, Halved;
    if s[i].left != 0 {
      assert Nodes(Halved(t.left)) !! {i} by { HalvesApart(s, i, t); HalvedNodes(t.left); }
      SparesTree(left.0, s2, {i}, i + s[i].left, Halved(t.left));
    }
    if s[i].right != 0 {
      assert Nodes(t.right) !! {i} + Nodes(t.left) by { HalvesApart(s, i, t); }
      SparesTree(s, s2, {i} + Nodes(t.left), i + s[i].right, t.right);
    }
  }

  lemma {:induction false} RightIsRescaled(s: seq<Symbol>, s2: seq<Symbol>, r: (seq<Symbol>, nat), i: nat, t: Tree, total: nat)
    requires Represents(s, i, t) && Descending(t) && HalfRescaled(s, s2, i, t)
    requires if s[i].right != 0 then IsRescaled(r, s2, i + s[i].right, t.right, total + s2[i].under)
             else r == (s2, total + s2[i].under)
    ensures IsRescaled(r, s, i, t, total)
  {
    hide Nodes, Descending, OnlyNodesChanged;
    assert r.1 == total + Weight(Halved(t)) by { HalvesApart(s, i, t); }
    assert t.at == i && s[i].value == t.value && (s[i].left == 0 ==> t.left == Nil) && (s[i].right == 0 ==> t.right == Nil);
    hide Weight, Represents, Halved;
    assert OnlyNodesChanged(s, r.0, Nodes(t)) && r.0[i] == s2[i] by {
      HalvesApart(s, i, t);
      RightFrame(s, s2, r.0, i, t);
    }
    assert s[i].left != 0 ==> Represents(r.0, i + s[i].left, Halved(t.left)) by {
      if s[i].left != 0 && s[i].right != 0 {
        assert Nodes(Halved(t.left)) !! Nodes(t.right) by { HalvesApart(s, i, t); HalvedNodes(t.left); }
        SparesTree(s2, r.0, Nodes(t.right), i + s[i].left, Halved(t.left));
      }
    }
    assert Represents(r.0, i, Halved(t)) by { Rebuild(r.0, i, t, s[i]); }
  }

  lemma {:induction false} Rebuild(s: seq<Symbol>, i: nat, t: Tree, x: Symbol)
    requires t.Node? && i < |s| && t.at == i && x.value == t.value && (x.left == 0 ==> t.left == Nil) && (x.right == 0 ==> t.right == Nil)
    requires s[i] == x.(count := Halve(t.count), under := Halve(t.count) + Weight(Halved(t.left)))
    requires x.left != 0 ==> Represents(s, i + x.left, Halved(t.left))
    requires x.right != 0 ==> Represents(s, i + x.right, Halved(t.right))
    ensures Represents(s, i, Halved(t))
  {
    hide Weight;
  }

  lemma {:induction false} RightFrame(s: seq<Symbol>, s2: seq<Symbol>, s3: seq<Symbol>, i: nat, t: Tree)
    requires t.Node? && i < |s| && i !in Nodes(t.right) && Nodes(t) == {i} + Nodes(t.left) + Nodes(t.right)
    requires OnlyNodesChanged(s, s2, {i} + Nodes(t.left))
    requires if s[i].right != 0 then OnlyNodesChanged(s2, s3, Nodes(t.right)) else s3 == s2 && Nodes(t.right) == {}
    ensures OnlyNodesChanged(s, s3, Nodes(t)) && s3[i] == s2[i]
  {
    hide Nodes, OnlyNodesChanged;
    OnlyTheseChanged(s2, s3, Nodes(t.right), s[i].right == 0);
    ChangedTwice(s, s2, s3, {i} + Nodes(t.left), Nodes(t.right));
    assert |s2| == |s| by { SameSize(s, s2, {i} + Nodes(t.left)); }
    OthersKept(s2, s3, Nodes(t.right), i);
  }

  lemma {:induction false} SameSize(s: seq<Symbol>, s': seq<Symbol>, nodes: set<nat>)
    requires OnlyNodesChanged(s, s', nodes)
    ensures |s'| == |s|
  {
  }

  lemma {:induction false} OnlyTopChanged(s: seq<Symbol>, s': seq<Symbol>, i: nat)
    requires i < |s| && |s'| == |s| && s' == s[i := s'[i]] && SameContext(s[i], s'[i])
    ensures OnlyNodesChanged(s, s', {i})
  {
  }

  lemma {:induction false} OnlyTheseChanged(s: seq<Symbol>, s': seq<Symbol>, nodes: set<nat>, none: bool)
    requires if none then s' == s else OnlyNodesChanged(s, s', nodes)
    ensures OnlyNodesChanged(s, s', nodes)
  {
  }

  lemma {:induction false} OthersKept(s: seq<Symbol>, s': seq<Symbol>, nodes: set<nat>, i: nat)
    requires OnlyNodesChanged(s, s', nodes) && i < |s| && i !in nodes
    ensures s'[i] == s[i]
  {
  }

  lemma {:induction false} ChangedTwice(s: seq<Symbol>, s': seq<Symbol>, s'': seq<Symbol>, nodes: set<nat>, more: set<nat>)
    requires OnlyNodesChanged(s, s', nodes) && OnlyNodesChanged(s', s'', more)
    ensures OnlyNodesChanged(s, s'', nodes + more)
  {
  }

  /** A tree keeps its representation while only other symbols change. */
  lemma {:induction false} SparesTree(s: seq<Symbol>, s': seq<Symbol>, nodes: set<nat>, root: nat, t: Tree)
    requires OnlyNodesChanged(s, s', nodes) && Represents(s, root, t) && Nodes(t) !! nodes
    ensures Represents(s', root, t)
  {
    hide Nodes;
    RepresentsFrame(s, s', root, t);
  }

  lemma {:induction false} HalvedNodes(t: Tree)
    ensures Nodes(Halved(t)) == Nodes(t)
  {
    if t.Node? {
      HalvedNodes(t.left);
      HalvedNodes(t.right);
    }
  }
}
