/** Compression and decompression of src/compress.c over the abstract model, and their round trip. */
module Ppm {
  import opened Carryless
  import opened FrequencyModel

  /** `history` is the predicted context, at most two bytes long; `used` is `nextSymbol`. */
  datatype Model = Model(contexts: map<Path, Context>, used: nat, history: Path)

  function Empty(): Context { Context(NO_COUNTS, 0) }

  const FRESH := Model(map[[] := Context(NO_COUNTS, ESCAPE_MINIMUM)], 1, [])

  function Ctx(m: Model, p: Path): (ctx: Context) {
    if p in m.contexts then m.contexts[p] else Empty()
  }

  ghost predicate ContextsOk(m: Model) {
    forall p :: ContextOk(Ctx(m, p), p)
  }

  ghost predicate ModelOk(m: Model) {
    && ContextsOk(m)
    && |m.history| <= ORDER
    && 0 < m.used < TABLE_SIZE - ORDER
  }

  /** Byte v is coded in, or added to, the context p; a byte new to the context takes a symbol. */
  function LearnAt(m: Model, p: Path, v: Byte): Model
    requires |Ctx(m, p).counts| == 256
  {
    m.(contexts := m.contexts[p := Observe(Ctx(m, p), p, v)],
       used := m.used + if Ctx(m, p).counts[v] == 0 then 1 else 0)
  }

  /** The context for the next byte; a table about to overflow is started afresh. */
  function Advance(m: Model, v: Byte): Model {
    if m.used >= TABLE_SIZE - ORDER then FRESH
    else m.(history := (if |m.history| >= ORDER then m.history[1..] else m.history) + [v])
  }

  // ---- Encoding a byte ----

  /** From the longest context down: escape and add the byte, until a context that knows it, or the root. */
  function EncodeFrom(m: Model, p: Path, v: Byte): (r: (seq<Slot>, Model))
    requires ContextsOk(m)
    ensures SlotsOk(r.0)
    ensures ContextsOk(r.1)
    ensures r.1.history == m.history && m.used <= r.1.used <= m.used + |p| + 1
    decreases |p|
  {
    var ctx := Ctx(m, p);
    LearnOk(m, p, v);
    if p == [] || ctx.counts[v] > 0 then
      SlotOfOk(ctx, p, v);
      ([SlotOf(ctx, p, v)], LearnAt(m, p, v))
    else
      var (slots, m') := EncodeFrom(LearnAt(m, p, v), p[1..], v);
      (EscapeSlots(ctx, p) + slots, m')
  }

  function EscapeSlots(ctx: Context, p: Path): (r: seq<Slot>)
    requires ContextOk(ctx, p)
    ensures SlotsOk(r)
  {
    if 0 < ctx.escapes < Total(ctx, p) then
      EscapeSlotOk(ctx, p);
      [Slot(0, ctx.escapes, Total(ctx, p))]
    else []
  }

  lemma {:induction false} LearnOk(m: Model, p: Path, v: Byte)
    requires ContextsOk(m)
    ensures ContextsOk(LearnAt(m, p, v))
    ensures forall q :: q != p ==> Ctx(LearnAt(m, p, v), q) == Ctx(m, q)
  {
    ObserveOk(Ctx(m, p), p, v);
    var learned := LearnAt(m, p, v);
    forall q: Path ensures ContextOk(Ctx(learned, q), q) {
      assert ContextOk(Ctx(m, q), q);
      assert Ctx(learned, q) == if q == p then Observe(Ctx(m, p), p, v) else Ctx(m, q);
    }
  }

  lemma {:induction false} AdvanceOk(m: Model, v: Byte)
    requires ContextsOk(m) && |m.history| <= ORDER && 0 < m.used
    ensures ModelOk(Advance(m, v))
  {
    FreshOk();
    var advanced := Advance(m, v);
    if m.used < TABLE_SIZE - ORDER {
      forall q: Path ensures ContextOk(Ctx(advanced, q), q) {
        assert Ctx(advanced, q) == Ctx(m, q);
      }
    }
  }

  lemma {:induction false} FreshOk()
    ensures ModelOk(FRESH)
  {
    BelowZero(NO_COUNTS, 256);
  }

  function EncodeByte(m: Model, v: Byte): (r: (seq<Slot>, Model))
    requires ModelOk(m)
    ensures SlotsOk(r.0) && ModelOk(r.1)
  {
    var (slots, m') := EncodeFrom(m, m.history, v);
    AdvanceOk(m', v);
    (slots, Advance(m', v))
  }

  function Slots(m: Model, data: seq<Byte>): (r: seq<Slot>)
    requires ModelOk(m)
    ensures SlotsOk(r)
    decreases |data|
  {
    if data == [] then [] else
      var (slots, m') := EncodeByte(m, data[0]);
      slots + Slots(m', data[1..])
  }

  /** What the compressor writes for `data`, given room enough. */
  function Compressed(data: seq<Byte>): seq<Byte> {
    FreshOk();
    Stream(INITIAL, Slots(FRESH, data))
  }

  // ---- Decoding a byte ----

  /** Where the next byte was found. `End`: the root escapes. `Fail`: the source gives up and returns 0.
      `Lost`: the code lies past every slot of the root, which no compressed stream leads to. */
  datatype Located = End | Fail | Lost | Found(at: Path, value: Byte, decoder: Decoder)

  /** What one context makes of the code: it settles the search, or escapes to the next shorter one. */
  datatype Probed = Stop(r: Located) | Descend(d: Decoder)

  function Probe(ctx: Context, p: Path, d: Decoder): (r: Probed)
    requires DecoderOk(d) && ContextOk(ctx, p)
    ensures r.Descend? ==> p != [] && DecoderOk(r.d)
    ensures r.Stop? && r.r.Found? ==> r.r.at == p && DecoderOk(r.r.decoder) && (p == [] || ctx.counts[r.r.value] > 0)
  {
    var total := Total(ctx, p);
    if p != [] && (ctx.escapes <= 0 || ctx.escapes >= total) then Descend(d)
    else
      EscapeSlotOk(ctx, p);
      var code := Read(d, total);
      if code < ctx.escapes then
        if p == [] then Stop(End) else Descend(Decode(d, Slot(0, ctx.escapes, total)))
      else if code >= total then
        Stop(if p == [] then Lost else Fail)
      else
        var v := ValueAt(ctx, p, code - ctx.escapes, 0);
        ValueAtFinds(ctx, p, code - ctx.escapes, 0);
        SlotOfOk(ctx, p, v);
        Stop(Found(p, v, Decode(d, SlotOf(ctx, p, v))))
  }

  /** From the longest context down: escape until a context whose slots hold the code. */
  function Locate(m: Model, p: Path, d: Decoder): (r: Located)
    requires DecoderOk(d) && ContextsOk(m)
    ensures r.Found? ==> DecoderOk(r.decoder) && |r.at| <= |p| && r.at == p[|p| - |r.at|..]
    ensures r.Found? && r.at != [] ==> Ctx(m, r.at).counts[r.value] > 0
    decreases |p|
  {
    match Probe(Ctx(m, p), p, d)
    case Stop(r) => r
    case Descend(d') => Locate(m, p[1..], d')
  }

  /** Adds the byte to every context that escaped it, longest first. */
  function Patch(m: Model, p: Path, at: Path, v: Byte): (r: Model)
    requires |at| <= |p| && at == p[|p| - |at|..] && ContextsOk(m)
    ensures ContextsOk(r)
    ensures r.history == m.history && m.used <= r.used <= m.used + |p| - |at|
    decreases |p|
  {
    if |p| == |at| then m else
      LearnOk(m, p, v);
      Patch(LearnAt(m, p, v), p[1..], at, v)
  }

  /** The model once byte v, found at context `at`, was learned there and in all longer contexts. */
  function Patched(m: Model, at: Path, v: Byte): (r: Model)
    requires ModelOk(m) && |at| <= |m.history| && at == m.history[|m.history| - |at|..]
    ensures ContextsOk(r) && r.history == m.history && 0 < r.used
  {
    LearnOk(m, at, v);
    Patch(LearnAt(m, at, v), m.history, at, v)
  }

  /** The model after byte v was found at context `at`. */
  function Learned(m: Model, at: Path, v: Byte): (r: Model)
    requires ModelOk(m) && |at| <= |m.history| && at == m.history[|m.history| - |at|..]
    ensures ModelOk(r)
  {
    AdvanceOk(Patched(m, at, v), v);
    Advance(Patched(m, at, v), v)
  }

  /** The outcome of decompression: the bytes, a return of 0, or a stream that is not modelled further. */
  datatype Outcome = Decoded(data: seq<Byte>) | Failed | Unmodelled

  function DecodeAll(m: Model, d: Decoder, limit: nat): Outcome
    requires ModelOk(m) && DecoderOk(d)
    decreases limit
  {
    match Locate(m, m.history, d)
    case End => Decoded([])
    case Fail => Failed
    case Lost => Unmodelled
    case Found(at, v, d') =>
      if limit == 0 then Failed
      else
        var rest := DecodeAll(Learned(m, at, v), d', limit - 1);
        if rest.Decoded? then Decoded([v] + rest.data) else rest
  }

  /** What decompression of `input` makes, given room for `limit` bytes. */
  function Decompressed(input: seq<Byte>, limit: nat): Outcome {
    FreshOk();
    DecodeAll(FRESH, Seed(input), limit)
  }

  // ---- The round trip ----

  lemma {:induction false} LearnCommutes(m: Model, p: Path, q: Path, v: Byte)
    requires p != q && ContextsOk(m)
    ensures ContextsOk(LearnAt(m, p, v))
    ensures ContextsOk(LearnAt(m, q, v))
    ensures LearnAt(LearnAt(m, p, v), q, v) == LearnAt(LearnAt(m, q, v), p, v)
  {
    LearnOk(m, p, v);
    LearnOk(m, q, v);
    var pq, qp := LearnAt(LearnAt(m, p, v), q, v), LearnAt(LearnAt(m, q, v), p, v);
    assert pq.contexts == qp.contexts;
  }

  /** Looking for the byte below a context does not depend on what that context has learned. */
  lemma {:induction false} LocateIgnores(m: Model, p: Path, v: Byte, q: Path, d: Decoder)
    requires DecoderOk(d) && |q| < |p| && ContextsOk(m)
    ensures ContextsOk(LearnAt(m, p, v))
    ensures Locate(LearnAt(m, p, v), q, d) == Locate(m, q, d)
    decreases |q|
  {
    hide Probe, Observe;
    LearnOk(m, p, v);
    assert Ctx(LearnAt(m, p, v), q) == Ctx(m, q);
    match Probe(Ctx(m, q), q, d)
    case Stop(_) =>
    case Descend(d') => LocateIgnores(m, p, v, q[1..], d');
  }

  /** The decoder `r` has read exactly the slots of v, and `m` is what the encoder learned from it. */
  ghost predicate Agrees(r: Located, v: Byte, start: Model, p: Path, m: Model, later: seq<Slot>)
    requires SlotsOk(later) && ContextsOk(start)
  {
    && r.Found? && r.value == v && |r.at| <= |p| && r.at == p[|p| - |r.at|..]
    && ContextsOk(LearnAt(start, r.at, v))
    && Patch(LearnAt(start, r.at, v), p, r.at, v) == m
    && exists c :: Ready(c) && Follows(r.decoder, c, Stream(c, later))
  }

  /** Whatever slots the encoder wrote for v, the decoder finds v from them and learns the same model. */
  lemma {:induction false} LocateFollows(m: Model, p: Path, v: Byte, d: Decoder, c: Coder, later: seq<Slot>)
    requires ContextsOk(m) && Ready(c) && SlotsOk(later) && DecoderOk(d)
    requires Follows(d, c, Stream(c, EncodeFrom(m, p, v).0 + later))
    ensures Agrees(Locate(m, p, d), v, m, p, EncodeFrom(m, p, v).1, later)
    decreases |p|
  {
    hide Stream, Read, Decode, Encode, Word, Drop, Interval, ValueAt, Below, Observe;
    var ctx := Ctx(m, p);
    LearnOk(m, p, v);
    if p == [] || ctx.counts[v] > 0 {
      SlotOfOk(ctx, p, v);
      FoundFollows(ctx, p, v, d, c, later);
    } else {
      var lower := LearnAt(m, p, v);
      var d', c' := EscapeFollows(m, p, v, d, c, later);
      LocateFollows(lower, p[1..], v, d', c', later);
      LocateIgnores(m, p, v, p[1..], d');
      PatchFollows(m, p, v, Locate(m, p, d), later);
    }
  }

  /** Below an escaped context the decoder goes on as the encoder did. */
  lemma {:induction false} EscapeFollows(m: Model, p: Path, v: Byte, d: Decoder, c: Coder, later: seq<Slot>) returns (d': Decoder, c': Coder)
    requires ContextsOk(m) && Ready(c) && SlotsOk(later) && DecoderOk(d)
    requires p != [] && Ctx(m, p).counts[v] == 0
    requires Follows(d, c, Stream(c, EncodeFrom(m, p, v).0 + later))
    ensures ContextsOk(LearnAt(m, p, v)) && DecoderOk(d') && Ready(c')
    ensures Follows(d', c', Stream(c', EncodeFrom(LearnAt(m, p, v), p[1..], v).0 + later))
    ensures Locate(m, p, d) == Locate(m, p[1..], d')
  {
    var ctx := Ctx(m, p);
    LearnOk(m, p, v);
    var slots := EncodeFrom(LearnAt(m, p, v), p[1..], v).0;
    assert EscapeSlots(ctx, p) + slots + later == EscapeSlots(ctx, p) + (slots + later);
    if ctx.escapes > 0 {
      EscapeSlotOk(ctx, p);
      var escape := Slot(0, ctx.escapes, Total(ctx, p));
      DecodeFollows(d, c, escape, slots + later);
      d', c' := Decode(d, escape), Encode(c, escape).1;
    } else {
      assert [] + (slots + later) == slots + later;
      d', c' := d, c;
    }
  }

  /** Patching the escaped context on the way back is the same as having learned it on the way down. */
  lemma {:induction false} PatchFollows(m: Model, p: Path, v: Byte, r: Located, later: seq<Slot>)
    requires ContextsOk(m) && ContextsOk(LearnAt(m, p, v)) && SlotsOk(later)
    requires p != [] && Ctx(m, p).counts[v] == 0
    requires Agrees(r, v, LearnAt(m, p, v), p[1..], EncodeFrom(m, p, v).1, later)
    ensures Agrees(r, v, m, p, EncodeFrom(m, p, v).1, later)
  {
    hide Stream, Follows, Interval, Observe, Below, EncodeFrom;
    LearnCommutes(m, p, r.at, v);
    LearnOk(m, r.at, v);
  }

  /** The context that knows the byte: its slot is read back as the byte. */
  lemma {:induction false} FoundFollows(ctx: Context, p: Path, v: Byte, d: Decoder, c: Coder, later: seq<Slot>)
    requires ContextOk(ctx, p) && (p == [] || ctx.counts[v] > 0) && Ready(c) && SlotsOk(later)
    requires SlotOk(SlotOf(ctx, p, v))
    requires Follows(d, c, Stream(c, [SlotOf(ctx, p, v)] + later))
    ensures 0 < ctx.escapes < Total(ctx, p)
    ensures ctx.escapes <= Read(d, Total(ctx, p)) < Total(ctx, p)
    ensures ValueAt(ctx, p, Read(d, Total(ctx, p)) - ctx.escapes, 0) == v
    ensures exists c' :: Ready(c') && Follows(Decode(d, SlotOf(ctx, p, v)), c', Stream(c', later))
  {
    hide Stream, Read, Decode, Encode, Word, Drop, Interval, ValueAt;
    var s := SlotOf(ctx, p, v);
    SlotOfOk(ctx, p, v);
    EscapeSlotOk(ctx, p);
    DecodeFollows(d, c, s, later);
    ValueAtSlot(ctx, p, Read(d, s.total) - ctx.escapes, v, 0);
  }

  /** At the flushed end of a stream every context escapes, down to the root. */
  lemma {:induction false} EndIsFound(m: Model, p: Path, d: Decoder)
    requires Ended(d) && ContextsOk(m)
    ensures Locate(m, p, d) == End
    decreases |p|
  {
    var ctx := Ctx(m, p);
    if ctx.escapes > 0 {
      EscapeSlotOk(ctx, p);
      var escape := Slot(0, ctx.escapes, Total(ctx, p));
      EndedStays(d, escape);
      if p != [] {
        EndIsFound(m, p[1..], Decode(d, escape));
      }
    } else {
      EndIsFound(m, p[1..], d);
    }
  }

  lemma {:induction false} DecodeAllFollows(m: Model, data: seq<Byte>, d: Decoder, c: Coder, limit: nat)
    requires ModelOk(m) && Ready(c) && DecoderOk(d) && |data| <= limit
    requires Follows(d, c, Stream(c, Slots(m, data)))
    ensures DecodeAll(m, d, limit) == Decoded(data)
    decreases |data|
  {
    hide Stream, Read, Decode, Encode, Word, Drop, Interval, ContextOk, Below, Observe, Locate, EncodeFrom, Patch, Advance, LearnAt;
    if data == [] {
      FlushEnds(d, c);
      EndIsFound(m, m.history, d);
    } else {
      var v := data[0];
      var later := Slots(EncodeByte(m, v).1, data[1..]);
      LocateFollows(m, m.history, v, d, c, later);
      var r := Locate(m, m.history, d);
      var c' :| Ready(c') && Follows(r.decoder, c', Stream(c', later));
      assert Learned(m, r.at, v) == EncodeByte(m, v).1;
      DecodeAllFollows(Learned(m, r.at, v), data[1..], r.decoder, c', limit - 1);
      assert [v] + data[1..] == data;
    }
  }

  /** Decompressing what was compressed, with room for it, gives the original back; the end of the
      stream is found from the zero-padded flush alone. */
  lemma {:induction false} RoundTrip(data: seq<Byte>, limit: nat)
    requires |data| <= limit
    ensures Decompressed(Compressed(data), limit) == Decoded(data)
  {
    FreshOk();
    DecodeAllFollows(FRESH, data, Seed(Compressed(data)), INITIAL, limit);
  }

  // ---- The two sides in step ----

  /** The encoder's model once the bytes of `data` are coded. */
  function EncoderAfter(m: Model, data: seq<Byte>): (r: Model)
    requires ModelOk(m)
    ensures ModelOk(r)
    decreases |data|
  {
    if data == [] then m else EncoderAfter(EncodeByte(m, data[0]).1, data[1..])
  }

  datatype Decoding = Decoding(model: Model, decoder: Decoder, data: seq<Byte>) | Stuck

  /** The decoder's model and what it has found once it has gone through k rounds. */
  function DecoderAfter(m: Model, d: Decoder, k: nat): (r: Decoding)
    requires ModelOk(m) && DecoderOk(d)
    ensures r.Decoding? ==> ModelOk(r.model) && DecoderOk(r.decoder)
    decreases k
  {
    if k == 0 then Decoding(m, d, [])
    else
      match Locate(m, m.history, d)
      case Found(at, v, d') =>
        var rest := DecoderAfter(Learned(m, at, v), d', k - 1);
        if rest.Decoding? then Decoding(rest.model, rest.decoder, [v] + rest.data) else Stuck
      case _ => Stuck
  }

  lemma {:induction false} StepsFollow(m: Model, data: seq<Byte>, d: Decoder, c: Coder, k: nat)
    requires ModelOk(m) && Ready(c) && DecoderOk(d) && k <= |data|
    requires Follows(d, c, Stream(c, Slots(m, data)))
    ensures var r := DecoderAfter(m, d, k); r.Decoding? && r.model == EncoderAfter(m, data[..k]) && r.data == data[..k]
    decreases k
  {
    hide Stream, Read, Decode, Encode, Word, Drop, Interval, ContextOk, Below, Observe, Locate, EncodeFrom, Patch, Advance, LearnAt;
    if k > 0 {
      var v := data[0];
      var later := Slots(EncodeByte(m, v).1, data[1..]);
      LocateFollows(m, m.history, v, d, c, later);
      var r := Locate(m, m.history, d);
      var c' :| Ready(c') && Follows(r.decoder, c', Stream(c', later));
      assert Learned(m, r.at, v) == EncodeByte(m, v).1;
      StepsFollow(Learned(m, r.at, v), data[1..], r.decoder, c', k - 1);
      assert data[..k][1..] == data[1..][..k - 1] && data[..k] == [v] + data[1..][..k - 1];
    }
  }

  /** After every byte the decoder has the encoder's model: the same counts and context, as many symbols taken, and
      started afresh at the same bytes. */
  lemma {:induction false} InStep(data: seq<Byte>, k: nat)
    requires k <= |data|
    ensures ModelOk(FRESH)
    ensures var r := DecoderAfter(FRESH, Seed(Compressed(data)), k);
            r.Decoding? && r.model == EncoderAfter(FRESH, data[..k]) && r.data == data[..k]
  {
    FreshOk();
    StepsFollow(FRESH, data, Seed(Compressed(data)), INITIAL, k);
  }

  // ---- Streams past the last slot ----

  /** The decoder's state when the search reaches the root, if it does. */
  function AtRoot(m: Model, p: Path, d: Decoder): (r: Probed)
    requires DecoderOk(d) && ContextsOk(m)
    ensures r.Descend? ==> DecoderOk(r.d)
    decreases |p|
  {
    if p == [] then Descend(d)
    else
      match Probe(Ctx(m, p), p, d)
      case Stop(r) => Stop(r)
      case Descend(d') => AtRoot(m, p[1..], d')
  }

  /** What is not modelled: every longer context escapes, and the part read at the root is not below its total. */
  lemma {:induction false} LostExactly(m: Model, p: Path, d: Decoder)
    requires DecoderOk(d) && ContextsOk(m)
    ensures 0 < Total(Ctx(m, []), []) < BOTTOM
    ensures Locate(m, p, d) == Lost <==>
            AtRoot(m, p, d).Descend? && Read(AtRoot(m, p, d).d, Total(Ctx(m, []), [])) >= Total(Ctx(m, []), [])
    decreases |p|
  {
    hide Read, ValueAt, Decode, Total;
    EscapeSlotOk(Ctx(m, []), []);
    if p != [] {
      match Probe(Ctx(m, p), p, d)
      case Stop(r) =>
      case Descend(d') => LostExactly(m, p[1..], d');
    }
  }
}
