/** Reliable sequence numbers: unbounded in the specification, 16 bits and 16 windows of 4096 on the wire. */
module Windows {
  const SPAN := 0x10000
  const WINDOW := 0x1000
  const WINDOWS := 16
  const FREE_WINDOWS := 8

  /** What the wire carries of a sequence number. */
  function Wire(n: nat): (w: nat)
    ensures w < SPAN
  {
    n % SPAN
  }

  function WindowOf(n: nat): nat { n / WINDOW }

  /** How many windows a received number seems to be ahead of the current one: the comparison made by the
      receive handlers and by the acknowledgement queue. A number below the current one counts as wrapped. */
  function Ahead(sequence: nat, current: nat): int {
    sequence / WINDOW + (if sequence < current then WINDOWS else 0) - current / WINDOW
  }

  /** The unbounded number a receiver at `base` takes 16 bits to stand for: the first one from `base` on. */
  function Resolve(base: nat, w: nat): nat {
    base - base % SPAN + w + if w < Wire(base) then SPAN else 0
  }

  lemma {:induction false} WireWindow(n: nat)
    ensures WindowOf(n) == n / SPAN * WINDOWS + Wire(n) / WINDOW
  {
  }

  /** The comparison on 16 bits is the distance in windows to the number they are taken for. */
  lemma {:induction false} AheadResolves(base: nat, w: nat)
    requires w < SPAN
    ensures Resolve(base, w) >= base && Wire(Resolve(base, w)) == w
    ensures Resolve(base, w) == base <==> w == Wire(base)
    ensures Ahead(w, Wire(base)) == WindowOf(Resolve(base, w)) - WindowOf(base)
  {
    var n := Resolve(base, w);
    var q := base / SPAN + if w < Wire(base) then 1 else 0;
    assert n == q * SPAN + w;
    Divides(q, w);
    WireWindow(n);
    WireWindow(base);
  }

  lemma {:induction false} Divides(q: nat, w: nat)
    requires w < SPAN
    ensures (q * SPAN + w) % SPAN == w && (q * SPAN + w) / SPAN == q
  {
  }

  /** A number from `base` on is recognised if it is less than 2^16 away; a number behind `base` is taken for
      one 16 windows later. */
  lemma {:induction false} ResolveRecognises(base: nat, n: nat)
    requires n < base + SPAN && base <= n + SPAN
    ensures base <= n ==> Resolve(base, Wire(n)) == n
    ensures n < base < n + SPAN ==> Resolve(base, Wire(n)) == n + SPAN
  {
    var q, p := n / SPAN, base / SPAN;
    assert n == q * SPAN + Wire(n) && base == p * SPAN + Wire(base);
    assert p - 1 <= q <= p + 1;
    assert base - base % SPAN == p * SPAN;
  }

  lemma {:induction false} LaterWindow(n: nat)
    ensures WindowOf(n + SPAN) == WindowOf(n) + WINDOWS
  {
  }

  /** Numbers less than 16 windows apart differ on the wire. */
  lemma {:induction false} WireInjective(n: nat, m: nat)
    requires n < m < n + SPAN
    ensures Wire(n) != Wire(m)
  {
  }

  lemma {:induction false} WindowsApart(n: nat, m: nat)
    ensures n <= m ==> WindowOf(n) <= WindowOf(m)
    ensures WindowOf(m) < WindowOf(n) + WINDOWS - 1 ==> m < n + SPAN
  {
  }

  /** How the source compares two wire numbers: first the side of the wrap they are on, then their values. */
  lemma {:induction false} WireOrder(base: nat, w: nat, v: nat)
    requires w < SPAN && v < SPAN
    ensures v >= Wire(base) && w < Wire(base) ==> Resolve(base, w) > Resolve(base, v)
    ensures v < Wire(base) <= w ==> Resolve(base, w) < Resolve(base, v)
    ensures (v < Wire(base) <==> w < Wire(base)) ==> Resolve(base, w) - Resolve(base, v) == w - v
  {
  }
}
