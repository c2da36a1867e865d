/** What becomes of commands that are sent again: nothing that waits for an acknowledgement is left out of a pass. */
module Retries {
  import opened SendQueues
  import opened Packing
  import opened Timeouts
  import opened Ledgers
  import opened Turns

  /** How far apart two times are, in 32 bits. */
  function Between(a: nat, b: nat): int {
    var t := (a - b) % 0x1_0000_0000; if t < 86400000 then t else (b - a) % 0x1_0000_0000
  }

  /** A command has been waiting for its timeout. */
  predicate Overdue(c: Outgoing, now: nat) { Between(now, c.sentTime) >= c.timeout }

  /** The moment a command expires has come, in 32 bits. */
  predicate Reached(c: Outgoing, now: nat) { (now - (c.sentTime + c.timeout)) % 0x1_0000_0000 < 86400000 }

  /** A pass looks at the timeouts if the first of the sent commands is due. */
  predicate Checks(sent: seq<Outgoing>, now: nat, checkForTimeouts: bool) {
    checkForTimeouts && sent != [] && Reached(sent[0], now)
  }

  /** A command as it is kept when it has been sent once more; `rto` is the timeout of one that has none yet. */
  function Repeated(c: Outgoing, now: nat, rto: nat): Outgoing {
    c.(attempts := c.attempts + 1, sentTime := now, timeout := if c.timeout == 0 then rto else c.timeout)
  }

  /** What packing the commands of e adds to the sent commands. */
  function SentOf(e: seq<Outgoing>, now: nat, rto: nat): seq<Outgoing> {
    if e == [] then [] else SentOf(e[..|e| - 1], now, rto) + SentIn(e[|e| - 1], now, rto)
  }

  function SentIn(c: Outgoing, now: nat, rto: nat): seq<Outgoing> { if c.acknowledge then [Repeated(c, now, rto)] else [] }

  /** A command is in the list it is sent from. */
  predicate Waits(c: Outgoing, q: Queues) { c in (if c.packet then q.reliable else q.outgoing) }

  ghost predicate SentAgain(c: Outgoing, sent: seq<Outgoing>, now: nat) {
    exists rto: nat :: rto > 0 && Repeated(c, now, rto) in sent
  }

  /** A command waits in its list, or a datagram took it and it is kept as sent once more. */
  ghost predicate Owed(c: Outgoing, q: Queues, entries: seq<Entry>, now: nat) {
    c.acknowledge && (Waits(c, q) || (Command(c) in entries && SentAgain(c, q.sent, now)))
  }

  /** From q to r, with the entries sent. Whatever waits to be sent reliably still does or was sent. If the timeouts were
      checked, each sent command that was overdue does so with its timeout doubled, and no other; what is kept as sent was
      kept before, in time, or has just been sent. */
  ghost predicate Onward(q: Queues, r: Queues, entries: seq<Entry>, now: nat, checked: bool) {
    && (forall c: Outgoing :: c.acknowledge && Waits(c, q) ==> Owed(c, r, entries, now))
    && (forall c :: c in q.sent ==>
          if checked && Overdue(c, now) then Owed(c.(timeout := c.timeout * 2), r, entries, now) else c in r.sent)
    && (forall c :: c in r.sent ==>
          (c in q.sent && !(checked && Overdue(c, now))) || (c.sentTime == now && c.timeout > 0))
    && (!checked && q.sent != [] ==> r.sent != [] && r.sent[0] == q.sent[0])
  }

  lemma {:induction false} BetweenExactly(a: nat, b: nat)
    ensures TimeDifference(a, b) == Between(a, b)
  {
  }

  lemma {:induction false} OverdueExactly(c: Outgoing, now: nat)
    ensures Expired(c, now) <==> Overdue(c, now)
  {
  }

  lemma {:induction false} ReachedExactly(c: Outgoing, now: nat)
    ensures Reached(c, now) <==> !TimeLess(now, (c.sentTime + c.timeout) % TIME_SPAN)
  {
  }

  /** What was just sent is not overdue. */
  lemma {:induction false} JustSentInTime(c: Outgoing, now: nat)
    requires c.sentTime == now && c.timeout > 0
    ensures !Overdue(c, now)
  {
  }

  lemma {:induction false} OnwardItself(q: Queues, entries: seq<Entry>, now: nat)
    ensures Onward(q, q, entries, now, false)
  {
    hide Overdue;
  }

  lemma {:induction false} OwedStill(c: Outgoing, q: Queues, r: Queues, m: seq<Entry>, n: seq<Entry>, k: seq<Entry>, now: nat,
                                     checked: bool)
    requires Owed(c, q, m, now) && Onward(q, r, n, now, checked)
    requires forall e :: e in m || e in n ==> e in k
    ensures Owed(c, r, k, now)
  {
    hide Overdue;
    if !Waits(c, q) {
      var rto: nat :| rto > 0 && Repeated(c, now, rto) in q.sent;
      JustSentInTime(Repeated(c, now, rto), now);
      assert Repeated(c, now, rto) in r.sent;
    }
  }

  /** One stretch after another. Timeouts are checked in the second only if they were in the first, or there is nothing
      overdue. */
  lemma {:induction false} OnwardChains(q: Queues, r: Queues, s: Queues, m: seq<Entry>, n: seq<Entry>, k: seq<Entry>, now: nat,
                                        checked: bool, again: bool)
    requires Onward(q, r, m, now, checked) && Onward(r, s, n, now, again)
    requires forall e :: e in m || e in n ==> e in k
    requires again ==> checked || q.sent == []
    ensures Onward(q, s, k, now, checked)
  {
    hide Overdue, Owed;
    forall c | c in r.sent ensures !(again && Overdue(c, now)) {
      if c.sentTime == now && c.timeout > 0 { JustSentInTime(c, now); }
    }
    forall c: Outgoing | c.acknowledge && Waits(c, q) ensures Owed(c, s, k, now) {
      OwedStill(c, r, s, m, n, k, now, again);
    }
    forall c | c in q.sent && checked && Overdue(c, now) ensures Owed(c.(timeout := c.timeout * 2), s, k, now) {
      OwedStill(c.(timeout := c.timeout * 2), r, s, m, n, k, now, again);
    }
  }

  lemma {:induction false} SentOfIn(e: seq<Outgoing>, c: Outgoing, now: nat, rto: nat)
    ensures c in e && c.acknowledge ==> Repeated(c, now, rto) in SentOf(e, now, rto)
    ensures rto > 0 ==> forall x :: x in SentOf(e, now, rto) ==> x.sentTime == now && x.timeout > 0
  {
    if e != [] {
      SentOfIn(e[..|e| - 1], c, now, rto);
      assert e == e[..|e| - 1] + [e[|e| - 1]];
    }
  }

  lemma {:induction false} OneMoreSent(e: seq<Outgoing>, c: Outgoing, now: nat, rto: nat)
    ensures SentOf(e + [c], now, rto) == SentOf(e, now, rto) + SentIn(c, now, rto)
  {
    assert (e + [c])[..|e|] == e;
  }

  lemma {:induction false} SentNothing(e: seq<Outgoing>, now: nat, rto: nat)
    ensures SentOf(e, now, rto) == [] <==> !AnyReliable(e)
  {
    hide AnyReliable;
    if e == [] {
      NoneReliable();
    } else {
      var n := |e| - 1;
      SentNothing(e[..n], now, rto);
      assert e == e[..n] + [e[n]];
      OneSent(e[..n], e[n]);
    }
  }

  lemma {:induction false} NoneSent(now: nat, rto: nat)
    ensures SentOf([], now, rto) == []
  {
  }

  /** A walk takes a command that asks for an acknowledgement into the datagram or leaves it where it is. */
  lemma {:induction false} WalkIsOnward(s: Snapshot, t: Snapshot, a: nat, b: nat, e: seq<Outgoing>, d: seq<Outgoing>, now: nat,
                                        rto: nat)
    requires Ledger(s, t, a, b, e, d) && rto > 0 && t.core.q.sent == s.core.q.sent + SentOf(e, now, rto)
    requires s.outgoing == s.core.q.outgoing && s.reliable == s.core.q.reliable
    requires t.outgoing == t.core.q.outgoing && t.reliable == t.core.q.reliable
    ensures Onward(s.core.q, t.core.q, t.commands, now, false)
  {
    hide Keys, LooseOf, CommandsOf, Overdue, Repeated;
    forall c: Outgoing | c.acknowledge && Waits(c, s.core.q) ensures Owed(c, t.core.q, t.commands, now) {
      SentOfIn(e, c, now, rto);
      if !Waits(c, t.core.q) {
        LeftIsPacked(s, t, a, b, e, d, c);
      }
    }
    SentOfIn(e, PING, now, rto);
  }

  lemma {:induction false} LeftIsPacked(s: Snapshot, t: Snapshot, a: nat, b: nat, e: seq<Outgoing>, d: seq<Outgoing>, c: Outgoing)
    requires Ledger(s, t, a, b, e, d) && c.acknowledge
    requires (c in s.reliable && c !in t.reliable) || (c in s.outgoing && c !in t.outgoing)
    ensures c in e && Command(c) in t.commands
  {
    hide Keys, LooseOf, CommandsOf;
    if c in s.reliable && c !in t.reliable {
      assert s.reliable == s.reliable[..b] + s.reliable[b..];
      assert c in multiset(s.reliable[..b]);
    } else {
      assert s.outgoing == s.outgoing[..a] + s.outgoing[a..];
      assert c in multiset(s.outgoing[..a]);
    }
    assert c in multiset(e) + multiset(d);
    assert c in e;
    var k :| 0 <= k < |e| && e[k] == c;
    assert CommandsOf(e)[k] == Command(c);
    assert Command(c) in CommandsOf(e);
  }

  /** A walk that leaves outgoingCommands empty has packed what is reliable of it; one that packs nothing reliable has not
      got past the head of the reliable list. */
  lemma {:induction false} AllTaken(s: Snapshot, t: Snapshot, a: nat, b: nat, e: seq<Outgoing>, d: seq<Outgoing>)
    requires Ledger(s, t, a, b, e, d) && t.outgoing == []
    ensures forall c :: c in s.outgoing && c.acknowledge ==> c in e
    ensures b > 0 && s.reliable[0].acknowledge ==> AnyReliable(e)
  {
    hide Keys, LooseOf, CommandsOf, AnyReliable;
    forall c | c in s.outgoing && c.acknowledge ensures c in e { LeftIsPacked(s, t, a, b, e, d, c); }
    AnyReliableExactly(e);
    if b > 0 && s.reliable[0].acknowledge {
      assert s.reliable[..b][0] in multiset(s.reliable[..b]);
      assert s.reliable[0] in multiset(e) + multiset(d);
    }
  }

  /** A command that joins a list takes nothing away. */
  lemma {:induction false} QueuedIsOnward(q: Queues, c: Outgoing, now: nat)
    ensures Onward(q, Queued(q, c), [], now, false)
  {
    hide Overdue;
  }

  /** The walk over all sent commands puts back just what is overdue. */
  lemma {:induction false} TimedOutIsOnward(q: Queues, r: Queues, now: nat)
    requires TimedOut(q.sent, |q.sent|, now, q.outgoing, q.reliable, r.sent, r.outgoing, r.reliable)
    requires forall c :: c in q.sent ==> c.acknowledge
    ensures Onward(q, r, [], now, true)
  {
    hide Overdue, Expired, Doubled;
    assert q.sent[..|q.sent|] == q.sent && q.sent[|q.sent|..] == [];
    assert r.sent == Kept(q.sent, now);
    forall c | c in q.sent && Overdue(c, now) ensures Owed(c.(timeout := c.timeout * 2), r, [], now) {
      BackHas(q.sent, c, now);
    }
    forall c ensures c in r.sent <==> c in q.sent && !Overdue(c, now) {
      KeptHas(q.sent, c, now);
    }
  }

  lemma {:induction false} BackHas(s: seq<Outgoing>, c: Outgoing, now: nat)
    requires c in s && Overdue(c, now)
    ensures c.(timeout := c.timeout * 2) in Back(s, now, c.packet)
  {
    hide Overdue, Expired;
    var n := |s| - 1;
    OverdueExactly(c, now);
    if c != s[n] {
      assert s == s[..n] + [s[n]];
      BackHas(s[..n], c, now);
    }
  }

  lemma {:induction false} KeptHas(s: seq<Outgoing>, c: Outgoing, now: nat)
    ensures c in Kept(s, now) <==> c in s && !Overdue(c, now)
  {
    hide Overdue, Expired;
    if s != [] {
      var n := |s| - 1;
      KeptHas(s[..n], c, now);
      OverdueExactly(s[n], now);
      assert s == s[..n] + [s[n]];
    }
  }

  // Giving up.

  lemma {:induction false} PowerAdds(a: nat, b: nat)
    ensures Power(a + b) == Power(a) * Power(b) && Power(1) == 2
  {
    if b == 0 {
      assert Power(a) * 1 == Power(a);
    } else {
      PowerAdds(a, b - 1);
      assert Power(a + b) == 2 * Power(a + (b - 1)) && Power(a) * (2 * Power(b - 1)) == 2 * (Power(a) * Power(b - 1));
    }
  }

  lemma {:induction false} PowerGrows(n: nat, k: nat)
    ensures Power(n) > 0 && (Power(n) >= Power(k) <==> n >= k)
  {
    if n > 0 && k > 0 {
      PowerGrows(n - 1, k - 1);
    } else if n > 0 {
      PowerGrows(n - 1, 0);
    } else if k > 0 {
      PowerGrows(0, k - 1);
    }
  }

  /** With the limits every peer begins with: after 30 seconds, or after 5 seconds and the sixth transmission. */
  lemma {:induction false} GivesUpExactly(c: Outgoing, earliest: nat, now: nat, l: TimeoutLimits, k: nat)
    requires l.limit == Power(k)
    ensures GivesUp(c, earliest, now, l) <==>
            && earliest != 0
            && (Between(now, earliest) >= l.maximum || (c.attempts > k && Between(now, earliest) >= l.minimum))
    ensures Power(5) == 32
  {
    hide Between, TimeDifference;
    BetweenExactly(now, earliest);
    if c.attempts > 0 { PowerGrows(c.attempts - 1, k); }
  }

  /** earliestTimeout is the time of the command sent first among those overdue, if all were sent within a day. */
  lemma {:induction false} EarliestIsFirst(s: seq<Outgoing>, now: nat, epoch: nat)
    requires forall c :: c in s ==> c.sentTime > 0 && (c.sentTime - epoch) % 0x1_0000_0000 < 86400000
    ensures var e := Earliest(s, now, 0);
            if exists c :: c in s && Overdue(c, now) then
              && (exists c :: c in s && Overdue(c, now) && c.sentTime == e)
              && forall c :: c in s && Overdue(c, now) ==>
                   (e - epoch) % 0x1_0000_0000 <= (c.sentTime - epoch) % 0x1_0000_0000
            else e == 0
  {
    hide Overdue, Expired, Earlier;
    if s != [] {
      var n := |s| - 1;
      assert s == s[..n] + [s[n]];
      EarliestIsFirst(s[..n], now, epoch);
      OverdueExactly(s[n], now);
      var e := Earliest(s[..n], now, 0);
      if Overdue(s[n], now) { EarlierIsFirst(s[n], e, epoch); }
    }
  }

  lemma {:induction false} EarlierIsFirst(c: Outgoing, e: nat, epoch: nat)
    requires (c.sentTime - epoch) % 0x1_0000_0000 < 86400000 && (e != 0 ==> (e - epoch) % 0x1_0000_0000 < 86400000)
    ensures Earlier(c, e) == (if e == 0 || (c.sentTime - epoch) % 0x1_0000_0000 < (e - epoch) % 0x1_0000_0000 then c.sentTime else e)
  {
    if e != 0 {
      var s: int, t: int := (c.sentTime - epoch) % 0x1_0000_0000, (e - epoch) % 0x1_0000_0000;
      Congruent(c.sentTime - epoch, e - epoch);
      assert (c.sentTime - epoch) - (e - epoch) == c.sentTime - e;
      assert (s - t) % 0x1_0000_0000 == if s >= t then s - t else s - t + 0x1_0000_0000;
    }
  }
}
