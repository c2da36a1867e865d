/** The carryless 32-bit range coder of src/compress.c, as functions on naturals.

  A coder state is the interval [low, low + range) of 32-bit words. Encoding a slot narrows the
  interval; normalising ships the leading byte of `low` and scales the interval up by 256. The
  decoder runs the same steps beside a 32-bit window `code` on the input.
 */
module Carryless {
  const WORD := 0x1_0000_0000
  const TOP := 0x100_0000
  const BOTTOM := 0x1_0000

  type Byte = b: nat | b < 256

  /** The share [under, under + count) of `total` equal parts of the current interval. */
  datatype Slot = Slot(under: nat, count: nat, total: nat)

  predicate SlotOk(s: Slot) {
    0 < s.count && s.under + s.count <= s.total < BOTTOM
  }

  datatype Coder = Coder(low: nat, range: nat)

  const INITIAL := Coder(0, WORD - 1)

  /** What every coder state satisfies. The upper end may reach 2^32 exactly, and then wraps to 0,
      but only when `low` has a non-zero leading byte. */
  predicate Interval(c: Coder) {
    0 < c.range && c.low + c.range <= WORD && (c.low + c.range == WORD ==> TOP <= c.low)
  }

  /** What holds between two slots: the interval is wide enough to be divided by any total. */
  predicate Ready(c: Coder) {
    Interval(c) && BOTTOM <= c.range
  }

  /** `(low ^ (low + range)) >= TOP` in 32 bits: the leading bytes differ. */
  predicate TopDiffers(c: Coder) {
    c.low / TOP != (c.low + c.range) % WORD / TOP
  }

  /** The exclusive-or test of the source compares leading bytes. */
  lemma {:induction false} ExclusiveOrComparesTopBytes(a: bv32, b: bv32)
    ensures (a ^ b) >= 0x100_0000 <==> a >> 24 != b >> 24
  {
  }

  /** `-low & (BOTTOM - 1)`: the distance to the next multiple of 2^16. */
  function Clip(c: Coder): nat {
    if TopDiffers(c) then -(c.low as int) % BOTTOM else c.range
  }

  /** One shift of the normalisation loop: the leading byte leaves, eight bits enter. */
  function Shift(c: Coder): Coder {
    Coder(c.low * 256 % WORD, Clip(c) * 256)
  }

  predicate Settled(c: Coder) {
    TopDiffers(c) && BOTTOM <= c.range
  }

  /** Once the interval ends at 2^32 it goes on doing so, and each shift makes it wider. */
  function Phase(c: Coder): nat {
    if c.low + c.range == WORD then 0 else 1
  }

  /** An unsettled interval shifts into a valid one that lies, scaled down, inside it. */
  lemma {:induction false} ShiftKeepsInterval(c: Coder)
    requires Interval(c) && !Settled(c)
    ensures Interval(Shift(c)) && 0 < Clip(c) <= c.range
    ensures c.low % TOP + Clip(c) <= TOP
    ensures Phase(Shift(c)) < Phase(c) || (Phase(Shift(c)) == Phase(c) && c.range < Shift(c).range)
  {
    hide TopDiffers;
    ShiftedLow(c.low);
    if TopDiffers(c) { ClipReaches(c); } else { TopsAgree(c); }
  }

  lemma {:induction false} ShiftedLow(low: nat)
    requires low < WORD
    ensures low * 256 % WORD == low % TOP * 256
  {
    assert low * 256 == low / TOP * WORD + low % TOP * 256;
  }

  /** With one leading byte throughout, the interval ends before the next. */
  lemma {:induction false} TopsAgree(c: Coder)
    requires Interval(c) && !TopDiffers(c)
    ensures c.low % TOP + c.range < TOP && c.low + c.range < WORD
  {
    if c.low + c.range == WORD {
      assert false;
    } else {
      assert (c.low + c.range) % WORD == c.low + c.range;
    }
  }

  /** A narrow interval with two leading bytes is cut where the second begins. */
  lemma {:induction false} ClipReaches(c: Coder)
    requires Interval(c) && TopDiffers(c) && c.range < BOTTOM
    ensures c.low % TOP + Clip(c) == TOP && 0 < Clip(c) <= c.range
  {
    var next := (c.low / TOP + 1) * TOP;
    var d := next - c.low;
    assert d <= c.range by {
      if c.low + c.range < WORD { assert (c.low + c.range) % WORD == c.low + c.range; }
    }
    MultipleAhead(c.low, d, (c.low / TOP + 1) * 256);
  }

  lemma {:induction false} MultipleAhead(low: nat, d: nat, k: nat)
    requires low + d == k * BOTTOM && 0 < d < BOTTOM
    ensures -(low as int) % BOTTOM == d
  {
    assert -(low as int) == (d as int) + (-(k as int)) * BOTTOM;
  }

  function Normalize(c: Coder): (r: (seq<Byte>, Coder))
    requires Interval(c)
    ensures Ready(r.1)
    decreases Phase(c), WORD - c.range
  {
    if Settled(c) then ([], c)
    else
      ShiftKeepsInterval(c);
      var rest := Normalize(Shift(c));
      ([c.low / TOP] + rest.0, rest.1)
  }

  /** The part of the interval a slot stands for, before normalisation. */
  function Narrow(c: Coder, s: Slot): (n: Coder)
    requires Ready(c) && SlotOk(s)
    ensures Interval(n) && c.low <= n.low && n.low + n.range <= c.low + c.range
  {
    NarrowNests(c, s);
    Coder(c.low + s.under * (c.range / s.total), c.range / s.total * s.count)
  }

  lemma {:induction false} NarrowNests(c: Coder, s: Slot)
    requires Ready(c) && SlotOk(s)
    ensures var r := c.range / s.total;
            1 <= r <= r * s.count && s.under * r + r * s.count <= c.range
  {
    QuotientIsPositive(c.range, s.total);
    ShareFits(c.range / s.total, s.under, s.count, s.total);
  }

  lemma {:induction false} QuotientIsPositive(x: nat, n: nat)
    requires 0 < n <= x
    ensures 1 <= x / n && x / n * n <= x
  {
  }

  lemma {:induction false} ShareFits(r: nat, under: nat, count: nat, total: nat)
    requires 0 < count && under + count <= total
    ensures under * r + r * count <= r * total && r <= r * count
  {
    assert r * total == r * under + r * count + r * (total - under - count);
  }

  /** Encoding one slot: the bytes shipped and the state left. */
  function Encode(c: Coder, s: Slot): (r: (seq<Byte>, Coder))
    requires Ready(c) && SlotOk(s)
    ensures Ready(r.1)
  {
    Normalize(Narrow(c, s))
  }

  /** The trailing bytes of `low`, without the zeros the decoder supplies by itself. */
  function Flush(low: nat): (r: seq<Byte>)
    requires low < WORD
    decreases Trailing(low)
  {
    if low == 0 then [] else
      ShiftDropsTrailing(low);
      [low / TOP] + Flush(low * 256 % WORD)
  }

  lemma {:induction false} ShiftDropsTrailing(low: nat)
    requires 0 < low < WORD
    ensures low * 256 % WORD == low % TOP * 256 && low == low / TOP * TOP + low % TOP
    ensures Trailing(low * 256 % WORD) < Trailing(low)
  {
    var a, b, c, d := low / TOP, low / BOTTOM % 256, low / 256 % 256, low % 256;
    BytesOf(low);
    RemainderIsUnique(low * 256, WORD, a, b * TOP + c * BOTTOM + d * 256);
    Tails(a, b, c, d);
    Tails(b, c, d, 0);
  }

  lemma {:induction false} BytesOf(low: nat)
    ensures low == low / TOP * TOP + low / BOTTOM % 256 * BOTTOM + low / 256 % 256 * 256 + low % 256
  {
    assert low / 256 / 256 == low / BOTTOM && low / BOTTOM / 256 == low / TOP;
  }

  lemma {:induction false} Tails(a: Byte, b: Byte, c: Byte, d: Byte)
    ensures var w := a * TOP + b * BOTTOM + c * 256 + d;
            w % TOP == b * BOTTOM + c * 256 + d && w % BOTTOM == c * 256 + d && w % 256 == d
  {
    var w := a * TOP + b * BOTTOM + c * 256 + d;
    RemainderIsUnique(w, TOP, a, b * BOTTOM + c * 256 + d);
    RemainderIsUnique(w, BOTTOM, a * 256 + b, c * 256 + d);
    RemainderIsUnique(w, 256, a * BOTTOM + b * 256 + c, d);
  }

  lemma {:induction false} RemainderIsUnique(x: nat, n: nat, q: nat, r: nat)
    requires x == q * n + r && r < n
    ensures x % n == r
  {
    if q < x / n {
      ProductGrows(q + 1, x / n, n);
    } else if x / n < q {
      ProductGrows(x / n + 1, q, n);
    }
  }

  /** How many bytes of a word remain before its zero tail. */
  function Trailing(low: nat): nat
    requires low < WORD
  {
    if low == 0 then 0 else if low % TOP == 0 then 1 else if low % BOTTOM == 0 then 2 else if low % 256 == 0 then 3 else 4
  }

  ghost predicate SlotsOk(slots: seq<Slot>) {
    forall i :: 0 <= i < |slots| ==> SlotOk(slots[i])
  }

  /** Everything still to be written when `slots` are left to encode from state `c`. */
  function Stream(c: Coder, slots: seq<Slot>): seq<Byte>
    requires Ready(c) && SlotsOk(slots)
    decreases |slots|
  {
    if slots == [] then Flush(c.low)
    else
      var (out, next) := Encode(c, slots[0]);
      out + Stream(next, slots[1..])
  }

  /** Encoding some slots: the bytes shipped and the state left. */
  function EncodeAll(c: Coder, slots: seq<Slot>): (r: (seq<Byte>, Coder))
    requires Ready(c) && SlotsOk(slots)
    ensures Ready(r.1)
    decreases |slots|
  {
    if slots == [] then ([], c)
    else
      var (out, next) := Encode(c, slots[0]);
      var rest := EncodeAll(next, slots[1..]);
      (out + rest.0, rest.1)
  }

  lemma {:induction false} StreamSplits(c: Coder, slots: seq<Slot>, later: seq<Slot>)
    requires Ready(c) && SlotsOk(slots) && SlotsOk(later)
    ensures Stream(c, slots + later) == EncodeAll(c, slots).0 + Stream(EncodeAll(c, slots).1, later)
    decreases |slots|
  {
    hide Encode, Flush;
    if slots == [] {
      assert [] + later == later;
    } else {
      assert (slots + later)[1..] == slots[1..] + later;
      StreamSplits(Encode(c, slots[0]).1, slots[1..], later);
    }
  }

  lemma {:induction false} EncodeAllSplits(c: Coder, slots: seq<Slot>, later: seq<Slot>)
    requires Ready(c) && SlotsOk(slots) && SlotsOk(later)
    ensures var first := EncodeAll(c, slots); var second := EncodeAll(first.1, later);
            EncodeAll(c, slots + later) == (first.0 + second.0, second.1)
    decreases |slots|
  {
    hide Encode;
    if slots == [] {
      assert [] + later == later;
      assert [] + EncodeAll(c, later).0 == EncodeAll(c, later).0;
    } else {
      assert (slots + later)[1..] == slots[1..] + later;
      var e := Encode(c, slots[0]);
      EncodeAllSplits(e.1, slots[1..], later);
      var first := EncodeAll(e.1, slots[1..]);
      assert e.0 + (first.0 + EncodeAll(first.1, later).0) == e.0 + first.0 + EncodeAll(first.1, later).0;
    }
  }

  // ---- The decoder ----

  datatype Decoder = Decoder(coder: Coder, code: nat, input: seq<Byte>)

  ghost predicate DecoderOk(d: Decoder) {
    Ready(d.coder) && d.code < WORD
  }

  /** A byte of the input, zero past its end. */
  function ByteAt(input: seq<Byte>, i: nat): Byte {
    if i < |input| then input[i] else 0
  }

  /** The leading 32 bits of the zero-padded input. */
  function Word(input: seq<Byte>): (w: nat)
    ensures w < WORD
  {
    ((ByteAt(input, 0) * 256 + ByteAt(input, 1)) * 256 + ByteAt(input, 2)) * 256 + ByteAt(input, 3)
  }

  function Drop(input: seq<Byte>, n: nat): seq<Byte> {
    if n <= |input| then input[n..] else []
  }

  function Seed(input: seq<Byte>): (d: Decoder)
    ensures DecoderOk(d)
  {
    Decoder(INITIAL, Word(input), Drop(input, 4))
  }

  /** `ENET_RANGE_CODER_READ`: which of `total` parts the code lies in, truncated to 16 bits. */
  function Read(d: Decoder, total: nat): nat
    requires DecoderOk(d) && 0 < total < BOTTOM
  {
    PartAt(d.code - d.coder.low, d.coder.range / total)
  }

  function PartAt(x: int, r: nat): nat
    requires 0 < r
  {
    x % WORD / r % BOTTOM
  }

  function NormalizeDecoder(d: Decoder): (r: Decoder)
    requires Interval(d.coder) && d.code < WORD
    ensures DecoderOk(r)
    decreases Phase(d.coder), WORD - d.coder.range
  {
    if Settled(d.coder) then d
    else
      ShiftKeepsInterval(d.coder);
      NormalizeDecoder(Decoder(Shift(d.coder), d.code * 256 % WORD + ByteAt(d.input, 0), Drop(d.input, 1)))
  }

  function Decode(d: Decoder, s: Slot): (r: Decoder)
    requires DecoderOk(d) && SlotOk(s)
    ensures DecoderOk(r)
  {
    NormalizeDecoder(Decoder(Narrow(d.coder, s), d.code, d.input))
  }

  // ---- Agreement of the two ----

  /** The bytes still to come name a point inside the interval. */
  ghost predicate Names(rest: seq<Byte>, c: Coder) {
    c.low <= Word(rest) < c.low + c.range
  }

  /** The decoder is where the encoder was, with `rest` being what the encoder went on to write. */
  ghost predicate Follows(d: Decoder, c: Coder, rest: seq<Byte>) {
    d == Decoder(c, Word(rest), Drop(rest, 4))
  }

  lemma {:induction false} WordOfCons(b: Byte, rest: seq<Byte>)
    ensures Word([b] + rest) == b * TOP + Word(rest) / 256
    ensures Word([b] + rest) * 256 % WORD + ByteAt(Drop([b] + rest, 4), 0) == Word(rest)
    ensures Drop(Drop([b] + rest, 4), 1) == Drop(rest, 4)
  {
    var s := [b] + rest;
    assert ByteAt(s, 0) == b && ByteAt(s, 1) == ByteAt(rest, 0) && ByteAt(s, 2) == ByteAt(rest, 1) && ByteAt(s, 3) == ByteAt(rest, 2);
    assert ByteAt(Drop(s, 4), 0) == ByteAt(rest, 3);
  }

  /** Normalisation read backwards: a point of the scaled interval is a point of the original. */
  lemma {:induction false} NormalizeNests(c: Coder, rest: seq<Byte>)
    requires Interval(c) && Names(rest, Normalize(c).1)
    ensures Names(Normalize(c).0 + rest, c)
    decreases Phase(c), WORD - c.range
  {
    if Settled(c) {
      assert Normalize(c).0 + rest == rest;
    } else {
      hide Word, Drop, ByteAt, Settled, Shift, Interval;
      ShiftKeepsInterval(c);
      var tail := Normalize(Shift(c)).0 + rest;
      NormalizeNests(Shift(c), rest);
      ShiftUnscales(c, Word(tail));
      WordOfCons(c.low / TOP, tail);
      assert Normalize(c).0 + rest == [c.low / TOP] + tail;
    }
  }

  /** A word of the shifted interval, put behind the shipped byte, is a word of the original. */
  lemma {:induction false} ShiftUnscales(c: Coder, code: nat)
    requires Interval(c) && !Settled(c)
    requires Shift(c).low <= code < Shift(c).low + Shift(c).range
    ensures c.low <= c.low / TOP * TOP + code / 256 < c.low + c.range
  {
    ShiftKeepsInterval(c);
    assert c.low * 256 % WORD == c.low % TOP * 256;
    assert c.low == c.low / TOP * TOP + c.low % TOP;
  }

  /** The decoder's normalisation keeps step with the encoder's. */
  lemma {:induction false} NormalizeFollows(d: Decoder, c: Coder, rest: seq<Byte>)
    requires Interval(c) && Follows(d, c, Normalize(c).0 + rest)
    ensures Follows(NormalizeDecoder(d), Normalize(c).1, rest)
    decreases Phase(c), WORD - c.range
  {
    if Settled(c) {
      assert Normalize(c).0 + rest == rest;
    } else {
      hide Word, Drop, ByteAt, Settled, Shift, Interval;
      ShiftKeepsInterval(c);
      var tail := Normalize(Shift(c)).0 + rest;
      assert Normalize(c).0 + rest == [c.low / TOP] + tail;
      WordOfCons(c.low / TOP, tail);
      var next := Decoder(Shift(c), Word(tail), Drop(tail, 4));
      assert NormalizeDecoder(d) == NormalizeDecoder(next);
      NormalizeFollows(next, Shift(c), rest);
    }
  }

  lemma {:induction false} FlushIsLow(low: nat)
    requires low < WORD
    ensures Word(Flush(low)) == low && |Flush(low)| <= Trailing(low)
    decreases Trailing(low)
  {
    if low != 0 {
      ShiftDropsTrailing(low);
      FlushIsLow(low * 256 % WORD);
      WordOfCons(low / TOP, Flush(low * 256 % WORD));
    }
  }

  /** Whatever is left to encode, the bytes left to write name a point of the current interval. */
  lemma {:induction false} StreamNames(c: Coder, slots: seq<Slot>)
    requires Ready(c) && SlotsOk(slots)
    ensures Names(Stream(c, slots), c)
    decreases |slots|
  {
    if slots == [] {
      FlushIsLow(c.low);
    } else {
      var (out, next) := Encode(c, slots[0]);
      StreamNames(next, slots[1..]);
      NormalizeNests(Narrow(c, slots[0]), Stream(next, slots[1..]));
    }
  }

  /** A code inside the narrowed interval is read as a part of the slot. */
  lemma {:induction false} ReadsSlot(d: Decoder, s: Slot)
    requires DecoderOk(d) && SlotOk(s)
    requires var n := Narrow(d.coder, s); n.low <= d.code < n.low + n.range
    ensures s.under <= Read(d, s.total) < s.under + s.count
  {
    NarrowNests(d.coder, s);
    PartOfSlot(d.code - d.coder.low, d.coder.range / s.total, s);
  }

  lemma {:induction false} PartOfSlot(x: nat, r: nat, s: Slot)
    requires 0 < r && x < WORD && SlotOk(s) && s.under * r <= x < s.under * r + r * s.count
    ensures s.under <= PartAt(x, r) < s.under + s.count
  {
    QuotientBounds(x, r, s.under, s.count);
    SmallModulo(x, WORD);
    SmallModulo(x / r, BOTTOM);
  }

  lemma {:induction false} SmallModulo(x: nat, m: nat)
    requires x < m
    ensures x % m == x
  {
  }

  /** The decoder reads a part inside the slot the encoder wrote, and stays in step over it. */
  lemma {:induction false} DecodeFollows(d: Decoder, c: Coder, s: Slot, slots: seq<Slot>)
    requires Ready(c) && SlotOk(s) && SlotsOk(slots)
    requires Follows(d, c, Stream(c, [s] + slots))
    ensures s.under <= Read(d, s.total) < s.under + s.count
    ensures Follows(Decode(d, s), Encode(c, s).1, Stream(Encode(c, s).1, slots))
  {
    var (out, next) := Encode(c, s);
    var rest := Stream(next, slots);
    assert ([s] + slots)[1..] == slots;
    assert Stream(c, [s] + slots) == out + rest;
    var n := Narrow(c, s);
    StreamNames(next, slots);
    NormalizeNests(n, rest);
    NormalizeFollows(Decoder(n, d.code, d.input), n, rest);
    ReadsSlot(d, s);
  }

  lemma {:induction false} QuotientBounds(x: nat, r: nat, under: nat, count: nat)
    requires 0 < r && under * r <= x < under * r + r * count
    ensures under <= x / r < under + count
  {
    var q := x / r;
    assert q * r <= x < q * r + r;
    if q < under {
      ProductGrows(q + 1, under, r);
    } else if under + count <= q {
      ProductGrows(under + count, q, r);
    }
  }

  lemma {:induction false} ProductGrows(a: nat, b: nat, r: nat)
    requires a <= b
    ensures a * r <= b * r
  {
  }

  /** At the end of the stream the code equals `low`: every read lands in part 0. */
  ghost predicate Ended(d: Decoder) {
    DecoderOk(d) && d.code == d.coder.low && d.input == []
  }

  lemma {:induction false} FlushEnds(d: Decoder, c: Coder)
    requires Ready(c) && Follows(d, c, Stream(c, []))
    ensures Ended(d)
  {
    FlushIsLow(c.low);
  }

  /** Every slot that starts at part 0 is read, and taking it leaves the decoder at the end of the stream. */
  lemma {:induction false} EndedStays(d: Decoder, s: Slot)
    requires Ended(d) && SlotOk(s) && s.under == 0
    ensures Read(d, s.total) < s.count && Ended(Decode(d, s))
  {
    ReadsSlot(d, s);
    NormalizeEnded(Decoder(Narrow(d.coder, s), d.code, d.input));
  }

  lemma {:induction false} NormalizeEnded(d: Decoder)
    requires Interval(d.coder) && d.code == d.coder.low && d.input == []
    ensures Ended(NormalizeDecoder(d))
    decreases Phase(d.coder), WORD - d.coder.range
  {
    if !Settled(d.coder) {
      ShiftKeepsInterval(d.coder);
      NormalizeEnded(Decoder(Shift(d.coder), d.code * 256 % WORD + ByteAt(d.input, 0), Drop(d.input, 1)));
    }
  }
}
