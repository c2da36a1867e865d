/** Cutting a packet into fragments and putting it together again. */
module Fragmentation {
  import opened Carryless

  datatype Fragment = Fragment(number: nat, offset: nat, length: nat)

  /** ceil(total / piece). */
  function PieceCount(total: nat, piece: nat): nat
    requires 0 < piece
  {
    (total + piece - 1) / piece
  }

  /** The i-th fragment of a packet cut every `piece` bytes. */
  function PieceAt(total: nat, piece: nat, i: nat): (f: Fragment)
    requires i * piece < total
    ensures f.offset + f.length <= total
  {
    Fragment(i, i * piece, if total - i * piece < piece then total - i * piece else piece)
  }

  lemma {:induction false} CountBounds(total: nat, piece: nat, i: nat)
    requires 0 < piece
    ensures i < PieceCount(total, piece) <==> i * piece < total
  {
    var n := PieceCount(total, piece);
    assert n * piece <= total + piece - 1 < n * piece + piece by { Quotient(total + piece - 1, piece); }
    if i < n { Scaled(i + 1, n, piece); } else { Scaled(n, i, piece); }
  }

  lemma {:induction false} Quotient(x: nat, y: nat)
    requires 0 < y
    ensures x / y * y <= x < x / y * y + y
  {
  }

  lemma {:induction false} Scaled(a: nat, b: nat, y: nat)
    requires a <= b
    ensures a * y <= b * y
  {
  }

  /** The loop of `enet_peer_send`: the last fragment shortens `fragmentLength` for good. */
  method Cut(total: nat, piece: nat) returns (fragments: seq<Fragment>)
    requires 0 < piece
    ensures |fragments| == PieceCount(total, piece)
    ensures forall i :: 0 <= i < |fragments| ==> i * piece < total && fragments[i] == PieceAt(total, piece, i)
  {
    fragments := [];
    var fragmentLength := piece;
    var fragmentOffset := 0;
    CountBounds(total, piece, 0);
    while fragmentOffset < total
      invariant forall i :: 0 <= i < |fragments| ==> i * piece < total && fragments[i] == PieceAt(total, piece, i)
      invariant if fragmentOffset < total then fragmentLength == piece && fragmentOffset == |fragments| * piece
                else fragmentOffset == total && |fragments| == PieceCount(total, piece)
      decreases total - fragmentOffset
    {
      ghost var i := |fragments|;
      if total - fragmentOffset < fragmentLength {
        fragmentLength := total - fragmentOffset;
      }
      fragments := fragments + [Fragment(|fragments|, fragmentOffset, fragmentLength)];
      fragmentOffset := fragmentOffset + fragmentLength;
      assert (i + 1) * piece == i * piece + piece;
      CountBounds(total, piece, i);
      CountBounds(total, piece, i + 1);
    }
  }

  /** The memcpy of the receive handler. */
  function Put(buffer: seq<Byte>, offset: nat, bytes: seq<Byte>): seq<Byte>
    requires offset + |bytes| <= |buffer|
  {
    buffer[..offset] + bytes + buffer[offset + |bytes|..]
  }

  function Bytes(data: seq<Byte>, f: Fragment): seq<Byte>
    requires f.offset + f.length <= |data|
  {
    data[f.offset..f.offset + f.length]
  }

  /** The fragments marked in `arrived` are in place. */
  ghost predicate Filled(buffer: seq<Byte>, data: seq<Byte>, piece: nat, arrived: seq<bool>) {
    && |buffer| == |data|
    && forall i :: 0 <= i < |arrived| && arrived[i] ==> InPlace(buffer, data, piece, i)
  }

  ghost predicate InPlace(buffer: seq<Byte>, data: seq<Byte>, piece: nat, i: nat) {
    && |buffer| == |data|
    && i * piece < |data|
    && Bytes(buffer, PieceAt(|data|, piece, i)) == Bytes(data, PieceAt(|data|, piece, i))
  }

  /** Fragments do not disturb each other, whatever order they arrive in. */
  lemma {:induction false} PutFills(buffer: seq<Byte>, data: seq<Byte>, piece: nat, arrived: seq<bool>, i: nat)
    requires Filled(buffer, data, piece, arrived) && i < |arrived| && i * piece < |data|
    ensures var f := PieceAt(|data|, piece, i);
            Filled(Put(buffer, f.offset, Bytes(data, f)), data, piece, arrived[i := true])
  {
    var f := PieceAt(|data|, piece, i);
    var after := Put(buffer, f.offset, Bytes(data, f));
    forall k | 0 <= k < |arrived| && arrived[i := true][k] ensures InPlace(after, data, piece, k) {
      if k == i {
        assert Bytes(after, f) == Bytes(data, f);
      } else {
        assert InPlace(buffer, data, piece, k);
        PutApart(buffer, data, piece, i, k);
      }
    }
  }

  lemma {:induction false} PutApart(buffer: seq<Byte>, data: seq<Byte>, piece: nat, i: nat, k: nat)
    requires i != k && |buffer| == |data| && i * piece < |data| && InPlace(buffer, data, piece, k)
    ensures var f := PieceAt(|data|, piece, i); InPlace(Put(buffer, f.offset, Bytes(data, f)), data, piece, k)
  {
    var f, g := PieceAt(|data|, piece, i), PieceAt(|data|, piece, k);
    assert f.offset + f.length <= g.offset || g.offset + g.length <= f.offset by {
      if i < k { NextPiece(i, k, piece); } else { NextPiece(k, i, piece); }
    }
    PutElsewhere(buffer, f.offset, Bytes(data, f), g);
  }

  lemma {:induction false} NextPiece(i: nat, k: nat, piece: nat)
    requires i < k
    ensures i * piece + piece <= k * piece
  {
    Scaled(i + 1, k, piece);
  }

  lemma {:induction false} PutElsewhere(buffer: seq<Byte>, offset: nat, bytes: seq<Byte>, g: Fragment)
    requires offset + |bytes| <= |buffer| && g.offset + g.length <= |buffer|
    requires offset + |bytes| <= g.offset || g.offset + g.length <= offset
    ensures Bytes(Put(buffer, offset, bytes), g) == Bytes(buffer, g)
  {
  }

  /** When every fragment is in, the buffer holds the packet. */
  lemma {:induction false} FilledIsWhole(buffer: seq<Byte>, data: seq<Byte>, piece: nat, arrived: seq<bool>)
    requires 0 < piece && Filled(buffer, data, piece, arrived) && |arrived| == PieceCount(|data|, piece)
    requires Missing(arrived) == 0
    ensures buffer == data
  {
    forall k | 0 <= k < |data| ensures buffer[k] == data[k] {
      var i := PieceOf(|data|, piece, k);
      MissingNone(arrived, i);
      BytesAgree(buffer, data, PieceAt(|data|, piece, i), k);
    }
  }

  /** Every byte lies in a fragment. */
  lemma {:induction false} PieceOf(total: nat, piece: nat, k: nat) returns (i: nat)
    requires 0 < piece && k < total
    ensures i < PieceCount(total, piece) && i * piece < total
    ensures var f := PieceAt(total, piece, i); f.offset <= k < f.offset + f.length
  {
    i := k / piece;
    Quotient(k, piece);
    CountBounds(total, piece, i);
  }

  lemma {:induction false} BytesAgree(buffer: seq<Byte>, data: seq<Byte>, f: Fragment, k: nat)
    requires |buffer| == |data| && f.offset <= k < f.offset + f.length <= |data|
    requires Bytes(buffer, f) == Bytes(data, f)
    ensures buffer[k] == data[k]
  {
    assert Bytes(buffer, f)[k - f.offset] == buffer[k] && Bytes(data, f)[k - f.offset] == data[k];
  }

  /** fragmentCount minus the bits set. */
  function Missing(arrived: seq<bool>): nat {
    if arrived == [] then 0 else (if arrived[0] then 0 else 1) + Missing(arrived[1..])
  }

  function NoneArrived(count: nat): (arrived: seq<bool>)
    ensures |arrived| == count && Missing(arrived) == count
    ensures forall i :: 0 <= i < count ==> !arrived[i]
  {
    if count == 0 then [] else [false] + NoneArrived(count - 1)
  }

  lemma {:induction false} MissingNone(arrived: seq<bool>, i: nat)
    requires i < |arrived|
    ensures Missing(arrived) == 0 ==> arrived[i]
    ensures !arrived[i] ==> Missing(arrived) == Missing(arrived[i := true]) + 1
  {
    if i > 0 {
      MissingNone(arrived[1..], i - 1);
      assert arrived[i := true][1..] == arrived[1..][i - 1 := true];
    } else {
      assert arrived[i := true][1..] == arrived[1..];
    }
  }

  /** A packet with a fragment missing has a number for it. */
  lemma {:induction false} MissingSome(arrived: seq<bool>) returns (i: nat)
    requires Missing(arrived) > 0
    ensures i < |arrived| && !arrived[i]
  {
    if arrived[0] {
      i := MissingSome(arrived[1..]);
      i := i + 1;
    } else {
      i := 0;
    }
  }
}
