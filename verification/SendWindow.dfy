/** The sender's record of which reliable windows are in flight: 16 counters and a bit mask. */
module SendWindow {
  import opened Windows
  import opened Delivery

  predicate Bit(used: bv32, w: bv32)
    requires w < 16
  {
    used & (1 << w) != 0
  }

  /** The bits of a window and of the nine after it, rotated within 16 bits. */
  function Ten(w: bv32): bv32
    requires w < 16
  {
    (((1 << 10) - 1) << w) | (((1 << 10) - 1) >> (16 - w))
  }

  function SetAt(used: bv32, w: bv32): bv32
    requires w < 16
  {
    used | (1 << w)
  }

  function ClearAt(used: bv32, w: bv32): bv32
    requires w < 16
  {
    used & !(1 << w)
  }

  /** The bit e places after w, going round 16. */
  function Rotated(w: bv32, e: bv32): (r: bv32)
    ensures r < 16
  {
    (w + e) & 15
  }

  lemma {:induction false} OrSets(used: bv32, w: bv32, k: bv32)
    requires w < 16 && k < 16
    ensures Bit(used | (1 << w), k) <==> k == w || Bit(used, k)
  {
  }

  lemma {:induction false} AndClears(used: bv32, w: bv32, k: bv32)
    requires w < 16 && k < 16
    ensures Bit(used & !(1 << w), k) <==> k != w && Bit(used, k)
  {
  }

  lemma {:induction false} SetBit(used: bv32, w: bv32, k: bv32)
    requires w < 16 && k < 16
    ensures Bit(SetAt(used, w), k) <==> k == w || Bit(used, k)
  {
    hide Bit;
    OrSets(used, w, k);
  }

  lemma {:induction false} StaysShort(used: bv32, w: bv32)
    requires w < 16 && used < 0x10000
    ensures SetAt(used, w) < 0x10000 && ClearAt(used, w) < 0x10000
  {
  }

  lemma {:induction false} ClearBit(used: bv32, w: bv32, k: bv32)
    requires w < 16 && k < 16
    ensures Bit(ClearAt(used, w), k) <==> k != w && Bit(used, k)
  {
    hide Bit;
    AndClears(used, w, k);
  }

  predicate TenFree(used: bv32, w: bv32)
    requires w < 16
  {
    && !Bit(used, Rotated(w, 0)) && !Bit(used, Rotated(w, 1)) && !Bit(used, Rotated(w, 2)) && !Bit(used, Rotated(w, 3))
    && !Bit(used, Rotated(w, 4)) && !Bit(used, Rotated(w, 5)) && !Bit(used, Rotated(w, 6)) && !Bit(used, Rotated(w, 7))
    && !Bit(used, Rotated(w, 8)) && !Bit(used, Rotated(w, 9))
  }

  lemma {:induction false} TenMisses(used: bv32, w: bv32, d: bv32)
    requires w < 16 && d < 10 && used & Ten(w) == 0
    ensures !Bit(used, Rotated(w, d))
  {
  }

  lemma {:induction false} TenFreeMisses(used: bv32, w: bv32)
    requires w < 16 && used < 0x10000 && TenFree(used, w)
    ensures used & Ten(w) == 0
  {
  }

  /** The mask meets no used window exactly when the ten windows from w on, modulo 16, are free. */
  lemma {:induction false} TenExact(used: bv32, w: bv32)
    requires w < 16 && used < 0x10000
    ensures used & Ten(w) == 0 <==> TenFree(used, w)
  {
    hide Ten, Bit, Rotated;
    if used & Ten(w) == 0 {
      TenMisses(used, w, 0);
      TenMisses(used, w, 1);
      TenMisses(used, w, 2);
      TenMisses(used, w, 3);
      TenMisses(used, w, 4);
      TenMisses(used, w, 5);
      TenMisses(used, w, 6);
      TenMisses(used, w, 7);
      TenMisses(used, w, 8);
      TenMisses(used, w, 9);
    } else if TenFree(used, w) {
      TenFreeMisses(used, w);
    }
  }

  // Window numbers as shift amounts.

  /** The window a shift amount stands for. */
  function Index(w: bv32): nat {
    match w
    case 0 => 0 case 1 => 1 case 2 => 2 case 3 => 3 case 4 => 4 case 5 => 5 case 6 => 6 case 7 => 7
    case 8 => 8 case 9 => 9 case 10 => 10 case 11 => 11 case 12 => 12 case 13 => 13 case 14 => 14 case _ => 15
  }

  /** The shift amount for a window. */
  function Shift(k: nat): (w: bv32)
    requires k < WINDOWS
    ensures w < 16 && Index(w) == k
  {
    ShiftIsExact(k);
    k as bv32
  }

  lemma {:induction false} ShiftIsExact(k: nat)
    requires k < WINDOWS
    ensures k as bv32 < 16 && Index(k as bv32) == k
    ensures ((k + 1) % WINDOWS) as bv32 == (k as bv32 + 1) & 15
  {
    if k < 8 { ShiftIsExactLow(k); } else { ShiftIsExactHigh(k); }
  }

  lemma {:induction false} ShiftIsExactLow(k: nat)
    requires k < 8
    ensures k as bv32 < 16 && Index(k as bv32) == k
    ensures ((k + 1) % WINDOWS) as bv32 == (k as bv32 + 1) & 15
  {
    if k == 0 {} else if k == 1 {} else if k == 2 {} else if k == 3 {} else if k == 4 {} else if k == 5 {}
    else if k == 6 {} else {}
  }

  lemma {:induction false} ShiftIsExactHigh(k: nat)
    requires 8 <= k < WINDOWS
    ensures k as bv32 < 16 && Index(k as bv32) == k
    ensures ((k + 1) % WINDOWS) as bv32 == (k as bv32 + 1) & 15
  {
    if k == 8 {} else if k == 9 {} else if k == 10 {} else if k == 11 {} else if k == 12 {} else if k == 13 {}
    else if k == 14 {} else {}
  }

  lemma {:induction false} NextShift(k: nat)
    requires k < WINDOWS
    ensures Shift((k + 1) % WINDOWS) == (Shift(k) + 1) & 15
  {
    ShiftIsExact(k);
  }

  lemma {:induction false} NextSlot(n: nat, d: nat)
    ensures SlotAhead(n, d + 1) == (SlotAhead(n, d) + 1) % WINDOWS < WINDOWS
    ensures SlotAhead(n, 0) == WindowOf(n) % WINDOWS
  {
  }

  /** One slot further is one bit further. */
  lemma {:induction false} NextSlotShift(n: nat, d: nat, w: bv32, e: bv32)
    requires SlotAhead(n, d) < WINDOWS && Shift(SlotAhead(n, d)) == Rotated(w, e)
    ensures SlotAhead(n, d + 1) < WINDOWS && Shift(SlotAhead(n, d + 1)) == Rotated(w, e + 1)
  {
    hide Shift, SlotAhead;
    NextSlot(n, d);
    NextShift(SlotAhead(n, d));
  }

  ghost predicate SlotsFree(used: bv32, n: nat) {
    forall d :: 0 <= d < 10 ==> SlotFree(used, n, d)
  }

  predicate SlotFree(used: bv32, n: nat, d: nat) { !Bit(used, Shift(SlotAhead(n, d))) }

  lemma {:induction false} TenSlots(used: bv32, n: nat)
    ensures TenFree(used, Shift(SlotAhead(n, 0))) <==> SlotsFree(used, n)
  {
    hide Bit, SlotAhead, Shift, Rotated;
    NextSlot(n, 0);
    var w := Shift(SlotAhead(n, 0));
    RotatedByNone(w);
    SlotIsBit(used, n, 0, w, 0);
    SlotIsBit(used, n, 1, w, 1);
    SlotIsBit(used, n, 2, w, 2);
    SlotIsBit(used, n, 3, w, 3);
    SlotIsBit(used, n, 4, w, 4);
    SlotIsBit(used, n, 5, w, 5);
    SlotIsBit(used, n, 6, w, 6);
    SlotIsBit(used, n, 7, w, 7);
    SlotIsBit(used, n, 8, w, 8);
    SlotIsBit(used, n, 9, w, 9);
  }

  lemma {:induction false} RotatedByNone(w: bv32)
    requires w < 16
    ensures Rotated(w, 0) == w
  {
  }

  lemma {:induction false} SlotIsBit(used: bv32, n: nat, d: nat, w: bv32, e: bv32)
    requires SlotAhead(n, d) < WINDOWS && Shift(SlotAhead(n, d)) == Rotated(w, e)
    ensures SlotFree(used, n, d) <==> !Bit(used, Rotated(w, e))
    ensures SlotAhead(n, d + 1) < WINDOWS && Shift(SlotAhead(n, d + 1)) == Rotated(w, e + 1)
  {
    NextSlotShift(n, d, w, e);
  }

  class Windows16 {
    var reliableWindows: array<nat>
    var usedReliableWindows: bv32

    /** The transmitted numbers not acknowledged yet. */
    ghost var inFlight: set<nat>

    /** Counter k counts what is in flight in slot k, and bit k says whether there is any. */
    ghost predicate Valid()
      reads this, reliableWindows
    {
      && reliableWindows.Length == WINDOWS && usedReliableWindows < 0x10000
      && forall k :: 0 <= k < WINDOWS ==> Counted(inFlight, reliableWindows[k], usedReliableWindows, k)
    }

    constructor ()
      ensures Valid() && inFlight == {} && fresh(reliableWindows)
    {
      reliableWindows := new nat[WINDOWS](_ => 0);
      usedReliableWindows, inFlight := 0, {};
      new;
      forall k | 0 <= k < WINDOWS ensures Counted(inFlight, reliableWindows[k], usedReliableWindows, k) {
        NoneCounted(k);
      }
    }

    /** The test before a reliable command is sent: true exactly when the command is sent for the first time and
        the window discipline forbids it. `n` is the number that `number` carries. */
    method Blocked(number: nat, sendAttempts: nat, ghost n: nat) returns (blocked: bool)
      requires Valid() && number == Wire(n)
      ensures blocked <==> sendAttempts < 1 && !MaySend(inFlight, n)
    {
      hide Ten, Shift, MaySend, InSlot, Wire;
      WireSlot(n);
      var reliableWindow := number / WINDOW;
      var w := Shift(reliableWindow);
      blocked := sendAttempts < 1 && number % WINDOW == 0
                 && (reliableWindows[(reliableWindow + WINDOWS - 1) % WINDOWS] >= WINDOW
                     || usedReliableWindows & Ten(w) != 0);
      MayBeSent(n);
    }

    /** The windows that the discipline is about, as counter and mask. */
    lemma {:induction false} MayBeSent(n: nat)
      requires Valid()
      ensures MaySend(inFlight, n) <==>
              (n % WINDOW == 0 ==> reliableWindows[SlotAhead(n, WINDOWS - 1)] < WINDOW
                                   && usedReliableWindows & Ten(Shift(SlotAhead(n, 0))) == 0)
    {
      hide Ten, Shift, InSlot, Bit;
      CountedAt(SlotAhead(n, WINDOWS - 1));
      TenFreeSlots(n);
    }

    lemma {:induction false} CountedAt(k: nat)
      requires Valid() && k < WINDOWS
      ensures Counted(inFlight, reliableWindows[k], usedReliableWindows, k)
    {
    }

    /** The mask test is the condition on ten windows. */
    lemma {:induction false} TenFreeSlots(n: nat)
      requires Valid()
      ensures usedReliableWindows & Ten(Shift(SlotAhead(n, 0))) == 0 <==>
              forall d :: 0 <= d < FREE_WINDOWS + 2 ==> InSlot(inFlight, SlotAhead(n, d)) == {}
    {
      hide Ten, Bit, Shift, TenFree;
      TenExact(usedReliableWindows, Shift(SlotAhead(n, 0)));
      TenSlots(usedReliableWindows, n);
      forall d: nat | d < 10
        ensures SlotFree(usedReliableWindows, n, d) <==> InSlot(inFlight, SlotAhead(n, d)) == {}
      {
        CountedAt(SlotAhead(n, d));
      }
    }

    /** A first transmission enters its window. */
    method FirstSent(number: nat, ghost n: nat)
      requires Valid() && number == Wire(n) && n !in inFlight
      modifies this, reliableWindows
      ensures Valid() && inFlight == old(inFlight) + {n} && reliableWindows == old(reliableWindows)
    {
      WireSlot(n);
      var reliableWindow := number / WINDOW;
      ghost var used, counts := usedReliableWindows, reliableWindows[..];
      usedReliableWindows := SetAt(usedReliableWindows, Shift(reliableWindow));
      reliableWindows[reliableWindow] := reliableWindows[reliableWindow] + 1;
      inFlight := inFlight + {n};
      forall k | 0 <= k < WINDOWS ensures Counted(inFlight, reliableWindows[k], usedReliableWindows, k) {
        assert counts[k] == old(reliableWindows[k]);
        CountedAfterSend(old(inFlight), counts[k], used, k, n);
      }
      StaysShort(used, Shift(reliableWindow));
    }

    /** The acknowledgement of a number in flight leaves its window. */
    method Acknowledge(number: nat, ghost n: nat)
      requires Valid() && number == Wire(n) && n in inFlight
      modifies this, reliableWindows
      ensures Valid() && inFlight == old(inFlight) - {n} && reliableWindows == old(reliableWindows)
    {
      WireSlot(n);
      var reliableWindow := number / WINDOW;
      ghost var used, counts := usedReliableWindows, reliableWindows[..];
      CountedAt(reliableWindow);
      assert n in InSlot(inFlight, reliableWindow);
      if reliableWindows[reliableWindow] > 0 {
        reliableWindows[reliableWindow] := reliableWindows[reliableWindow] - 1;
        if reliableWindows[reliableWindow] == 0 {
          usedReliableWindows := ClearAt(usedReliableWindows, Shift(reliableWindow));
        }
      }
      inFlight := inFlight - {n};
      forall k | 0 <= k < WINDOWS ensures Counted(inFlight, reliableWindows[k], usedReliableWindows, k) {
        assert counts[k] == old(reliableWindows[k]);
        CountedAfterAcknowledgement(old(inFlight), counts[k], used, k, n);
        if counts[reliableWindow] != 1 { assert usedReliableWindows == used; }
      }
      StaysShort(used, Shift(reliableWindow));
    }
  }

  ghost predicate Counted(inFlight: set<nat>, count: nat, used: bv32, k: nat)
    requires k < WINDOWS
  {
    count == |InSlot(inFlight, k)| && (Bit(used, Shift(k)) <==> count > 0)
  }

  lemma {:induction false} NoneCounted(k: nat)
    requires k < WINDOWS
    ensures Counted({}, 0, 0, k)
  {
    assert InSlot({}, k) == {};
    NoBit(Shift(k));
  }

  lemma {:induction false} NoBit(w: bv32)
    requires w < 16
    ensures !Bit(0, w)
  {
  }

  lemma {:induction false} WireSlot(n: nat)
    ensures Wire(n) / WINDOW == WindowOf(n) % WINDOWS == SlotAhead(n, 0) < WINDOWS
    ensures Wire(n) % WINDOW == n % WINDOW
    ensures (Wire(n) / WINDOW + WINDOWS - 1) % WINDOWS == SlotAhead(n, WINDOWS - 1)
  {
    WireWindow(n);
  }

  lemma {:induction false} CountedAfterSend(inFlight: set<nat>, count: nat, used: bv32, k: nat, n: nat)
    requires k < WINDOWS && Counted(inFlight, count, used, k) && n !in inFlight
    ensures var w := WindowOf(n) % WINDOWS;
            Counted(inFlight + {n}, if k == w then count + 1 else count, SetAt(used, Shift(w)), k)
  {
    hide Bit, Shift, SetAt, ClearAt, InSlot;
    var w := WindowOf(n) % WINDOWS;
    SetBit(used, Shift(w), Shift(k));
    InSlotChanges(inFlight, n, k);
    SlotsDiffer(k, w);
  }

  lemma {:induction false} SlotsDiffer(k: nat, w: nat)
    requires k < WINDOWS && w < WINDOWS
    ensures k == w <==> Shift(k) == Shift(w)
  {
  }

  lemma {:induction false} InSlotChanges(inFlight: set<nat>, n: nat, k: nat)
    ensures n !in inFlight ==>
              |InSlot(inFlight + {n}, k)| == |InSlot(inFlight, k)| + if WindowOf(n) % WINDOWS == k then 1 else 0
    ensures n in inFlight ==>
              |InSlot(inFlight - {n}, k)| == |InSlot(inFlight, k)| - if WindowOf(n) % WINDOWS == k then 1 else 0
  {
    if WindowOf(n) % WINDOWS == k {
      assert InSlot(inFlight + {n}, k) == InSlot(inFlight, k) + {n};
      assert InSlot(inFlight - {n}, k) == InSlot(inFlight, k) - {n};
    } else {
      assert InSlot(inFlight + {n}, k) == InSlot(inFlight, k);
      assert InSlot(inFlight - {n}, k) == InSlot(inFlight, k);
    }
  }

  lemma {:induction false} CountedAfterAcknowledgement(inFlight: set<nat>, count: nat, used: bv32, k: nat, n: nat)
    requires k < WINDOWS && Counted(inFlight, count, used, k) && n in inFlight
    ensures var w := WindowOf(n) % WINDOWS;
            if k != w then
              Counted(inFlight - {n}, count, used, k) && Counted(inFlight - {n}, count, ClearAt(used, Shift(w)), k)
            else
              && count > 0
              && Counted(inFlight - {n}, count - 1, if count == 1 then ClearAt(used, Shift(w)) else used, k)
  {
    hide Bit, Shift, SetAt, ClearAt, InSlot;
    var w := WindowOf(n) % WINDOWS;
    ClearBit(used, Shift(w), Shift(k));
    InSlotChanges(inFlight, n, k);
    SlotsDiffer(k, w);
  }
}
