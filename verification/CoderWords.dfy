/** The macros of src/compress.c that code and decode one slot, in 32-bit words and output buffers. */
module CoderWords {
  import opened Carryless

  /** `ENET_RANGE_CODER_ENCODE`: all arithmetic is modulo 2^32; the bytes go to `outData` from `pos` on.
      It fails, as `return 0` does, exactly when they do not fit. */
  method EncodeSlot(low0: nat, range0: nat, slot: Slot, outData: array<Byte>, pos0: nat, outLimit: nat)
    returns (ok: bool, low: nat, range: nat, pos: nat)
    requires Ready(Coder(low0, range0)) && SlotOk(slot) && pos0 <= outLimit <= outData.Length
    modifies outData
    ensures var (bytes, c) := Encode(Coder(low0, range0), slot);
            && (ok <==> pos0 + |bytes| <= outLimit)
            && (ok ==> Coder(low, range) == c && pos == pos0 + |bytes| && outData[..pos] == old(outData[..pos0]) + bytes)
  {
    hide Normalize;
    NarrowNests(Coder(low0, range0), slot);
    ghost var n := Narrow(Coder(low0, range0), slot);
    ghost var all := Normalize(n);
    range := range0 / slot.total;
    low := (low0 + slot.under * range) % WORD;
    range := range * slot.count % WORD;
    pos := pos0;
    ghost var start := outData[..pos0];
    ghost var done: seq<Byte> := [];
    NarrowInWords(Coder(low0, range0), slot);
    assert Coder(low, range) == n && all.0 == done + Normalize(n).0;
    while true
      invariant pos0 <= pos <= outLimit && pos == pos0 + |done|
      invariant Interval(Coder(low, range)) && outData[..pos] == start + done
      invariant all.0 == done + Normalize(Coder(low, range)).0 && all.1 == Normalize(Coder(low, range)).1
      decreases Phase(Coder(low, range)), WORD - range
    {
      ghost var c := Coder(low, range);
      NormalizeUnfolds(c);
      ShiftInWords(c);
      if low / TOP != (low + range) % WORD / TOP {
        if range >= BOTTOM {
          break;
        }
        range := (WORD - low) % BOTTOM;
      }
      if pos >= outLimit {
        return false, low, range, pos;
      }
      outData[pos] := low / TOP;
      ghost var rest := Normalize(Shift(c)).0;
      assert done + ([low / TOP] + rest) == done + [low / TOP] + rest;
      done := done + [low / TOP];
      pos := pos + 1;
      range := range * 256 % WORD;
      low := low * 256 % WORD;
      assert Coder(low, range) == Shift(c);
    }
    ok := true;
  }

  lemma {:induction false} NarrowInWords(c: Coder, slot: Slot)
    requires Ready(c) && SlotOk(slot)
    ensures var n, r := Narrow(c, slot), c.range / slot.total;
            (c.low + slot.under * r) % WORD == n.low && r * slot.count % WORD == n.range
  {
    NarrowNests(c, slot);
    var n := Narrow(c, slot);
    SmallModulo(n.low, WORD);
    SmallModulo(n.range, WORD);
  }

  lemma {:induction false} NormalizeUnfolds(c: Coder)
    requires Interval(c)
    ensures if Settled(c) then Normalize(c) == ([], c)
            else Interval(Shift(c)) && Normalize(c) == ([c.low / TOP] + Normalize(Shift(c)).0, Normalize(Shift(c)).1)
  {
    if !Settled(c) {
      ShiftKeepsInterval(c);
    }
  }

  /** Shifting in 32 bits loses nothing. */
  lemma {:induction false} ShiftInWords(c: Coder)
    requires Interval(c)
    ensures (-(c.low as int)) % BOTTOM == (WORD - c.low) % BOTTOM
    ensures !Settled(c) ==>
              && Clip(c) * 256 % WORD == Shift(c).range
              && (Phase(Shift(c)) < Phase(c) || (Phase(Shift(c)) == Phase(c) && c.range < Shift(c).range <= WORD))
  {
    NegativeModulo(c.low);
    if !Settled(c) {
      ShiftKeepsInterval(c);
      assert 0 < Shift(c).range < WORD;
      hide Clip, TopDiffers;
      SmallModulo(Clip(c) * 256, WORD);
    }
  }

  lemma {:induction false} NegativeModulo(x: nat)
    ensures (-(x as int)) % BOTTOM == (WORD - x) % BOTTOM
  {
  }

  /** `ENET_RANGE_CODER_FLUSH`. */
  method FlushLow(low0: nat, outData: array<Byte>, pos0: nat, outLimit: nat) returns (ok: bool, pos: nat)
    requires low0 < WORD && pos0 <= outLimit <= outData.Length
    modifies outData
    ensures ok <==> pos0 + |Flush(low0)| <= outLimit
    ensures ok ==> pos == pos0 + |Flush(low0)| && outData[..pos] == old(outData[..pos0]) + Flush(low0)
  {
    hide Flush, Trailing;
    var low: nat := low0;
    pos := pos0;
    ghost var start := outData[..pos0];
    ghost var done: seq<Byte> := [];
    assert Flush(low0) == done + Flush(low);
    while low != 0
      invariant pos0 <= pos <= outLimit && pos == pos0 + |done| && low < WORD
      invariant outData[..pos] == start + done && Flush(low0) == done + Flush(low)
      decreases Trailing(low)
    {
      FlushUnfolds(low);
      if pos >= outLimit {
        return false, pos;
      }
      ghost var rest := Flush(low * 256 % WORD);
      assert done + ([low / TOP] + rest) == done + [low / TOP] + rest;
      outData[pos] := low / TOP;
      done := done + [low / TOP];
      pos := pos + 1;
      low := low * 256 % WORD;
    }
    assert Flush(0) == [] by { EmptyFlush(); }
    ok := true;
  }

  lemma {:induction false} EmptyFlush()
    ensures Flush(0) == []
  {
  }

  lemma {:induction false} FlushUnfolds(low: nat)
    requires 0 < low < WORD
    ensures low / TOP < 256 && Flush(low) == [low / TOP] + Flush(low * 256 % WORD)
    ensures Trailing(low * 256 % WORD) < Trailing(low)
  {
    ShiftDropsTrailing(low);
  }

  function After(input: seq<Byte>, pos: nat): seq<Byte>
    requires pos <= |input|
  {
    input[pos..]
  }

  /** `ENET_RANGE_CODER_DECODE`, after a read has divided the range into shares. */
  method DecodeSlot(low0: nat, share: nat, code0: nat, slot: Slot, input: seq<Byte>, pos0: nat, ghost range0: nat)
    returns (low: nat, range: nat, code: nat, pos: nat)
    requires Ready(Coder(low0, range0)) && code0 < WORD && SlotOk(slot) && share == range0 / slot.total && pos0 <= |input|
    ensures pos <= |input|
    ensures Decoder(Coder(low, range), code, After(input, pos)) == Decode(Decoder(Coder(low0, range0), code0, After(input, pos0)), slot)
  {
    hide NormalizeDecoder;
    NarrowInWords(Coder(low0, range0), slot);
    ghost var n := Narrow(Coder(low0, range0), slot);
    ghost var all := NormalizeDecoder(Decoder(n, code0, After(input, pos0)));
    low := (low0 + slot.under * share) % WORD;
    range := share * slot.count % WORD;
    code, pos := code0, pos0;
    assert Coder(low, range) == n;
    while true
      invariant pos <= |input| && code < WORD && Interval(Coder(low, range))
      invariant all == NormalizeDecoder(Decoder(Coder(low, range), code, After(input, pos)))
      decreases Phase(Coder(low, range)), WORD - range
    {
      ghost var d := Decoder(Coder(low, range), code, After(input, pos));
      NormalizeDecoderUnfolds(d);
      ShiftInWords(d.coder);
      if low / TOP != (low + range) % WORD / TOP {
        if range >= BOTTOM {
          break;
        }
        range := (WORD - low) % BOTTOM;
      }
      code := code * 256 % WORD;
      if pos < |input| {
        code := code + input[pos];
        pos := pos + 1;
      }
      range := range * 256 % WORD;
      low := low * 256 % WORD;
      assert Coder(low, range) == Shift(d.coder);
      assert After(input, pos) == Drop(d.input, 1);
    }
  }

  lemma {:induction false} NormalizeDecoderUnfolds(d: Decoder)
    requires Interval(d.coder) && d.code < WORD
    ensures d.code * 256 % WORD + 255 < WORD
    ensures if Settled(d.coder) then NormalizeDecoder(d) == d
            else
              && Interval(Shift(d.coder))
              && NormalizeDecoder(d) == NormalizeDecoder(Decoder(Shift(d.coder), d.code * 256 % WORD + ByteAt(d.input, 0), Drop(d.input, 1)))
  {
    RemainderIsUnique(d.code * 256, WORD, d.code / TOP, d.code % TOP * 256);
    if !Settled(d.coder) {
      ShiftKeepsInterval(d.coder);
    }
  }
}
