/** What a peer does to its own queues: commands join them, are transmitted, leave unacknowledged, or come back. */
module Moves {
  import opened SendQueues
  import opened Packing
  import opened Queueing
  import opened Timeouts

  /** The queues of a peer, the last number each channel transmitted, and the counters. */
  datatype Core = Core(q: Queues, last: seq<nat>, counters: Counters)

  /** A command other than a reliable packet is queued; the head of a list is transmitted; unreliable commands leave the
      head of theirs; an expired command goes back to place p of its list. */
  datatype Move =
    | Enqueue(c: Outgoing, after: Counters)
    | Transmit(fromReliable: bool, now: nat, timeout: nat)
    | Leave(n: nat)
    | Return(k: nat, p: nat)

  predicate Sized(x: Core) {
    |x.last| == |x.q.inFlight| == |x.q.issued| && SendQueues.Bytes(x.q.sent) == x.q.transit
  }

  predicate Allowed(x: Core, m: Move) {
    Sized(x) && match m
                case Enqueue(c, after) =>
                  && !(c.acknowledge && c.packet) && c.attempts == 0 && Given(x.counters, after, c)
                  && if c.packet then c.channel < |x.last| else c.channel == PEER_CHANNEL && c.length == 0
                case Transmit(fromReliable, _, _) =>
                  if fromReliable then
                    x.q.reliable != [] && (x.q.reliable[0].attempts == 0 ==> Permitted(x.q, x.q.reliable[0]))
                  else x.q.outgoing != [] && x.q.outgoing[0].acknowledge
                case Leave(n) => n <= |x.q.outgoing| && forall k :: 0 <= k < n ==> !x.q.outgoing[k].acknowledge
                case Return(k, p) =>
                  k < |x.q.sent| && var s := if x.q.sent[k].packet then x.q.reliable else x.q.outgoing;
                                    p <= |s| && AllAttempted(s[..p])
  }

  function Moved(x: Core, m: Move): Core
    requires Allowed(x, m)
  {
    match m
    case Enqueue(c, after) => x.(q := Queued(x.q, c), counters := after)
    case Transmit(fromReliable, now, timeout) =>
      x.(q := Sent(x.q, fromReliable, now, timeout),
         last := Advanced(x.last, if fromReliable then x.q.reliable[0] else x.q.outgoing[0]))
    case Leave(n) => x.(q := x.q.(outgoing := x.q.outgoing[n..]))
    case Return(k, p) => x.(q := Returned(x.q, k, p))
  }

  /** The moves one after the other; those not allowed have no effect. */
  function Through(x: Core, moves: seq<Move>): Core {
    if moves == [] then x
    else
      var y, m := Through(x, moves[..|moves| - 1]), moves[|moves| - 1];
      if Allowed(y, m) then Moved(y, m) else y
  }

  ghost predicate Leads(x: Core, y: Core) { exists moves :: Through(x, moves) == y }

  lemma {:induction false} ThroughJoin(x: Core, a: seq<Move>, b: seq<Move>)
    ensures Through(x, a + b) == Through(Through(x, a), b)
  {
    hide Allowed, Moved;
    if b == [] {
      assert a + b == a;
    } else {
      ThroughJoin(x, a, b[..|b| - 1]);
      assert (a + b)[..|a + b| - 1] == a + b[..|b| - 1];
    }
  }

  lemma {:induction false} LeadsItself(x: Core)
    ensures Leads(x, x)
  {
    assert Through(x, []) == x;
  }

  lemma {:induction false} LeadsOn(x: Core, y: Core, z: Core)
    requires Leads(x, y) && Leads(y, z)
    ensures Leads(x, z)
  {
    hide Through;
    var a :| Through(x, a) == y;
    var b :| Through(y, b) == z;
    ThroughJoin(x, a, b);
  }

  lemma {:induction false} OneMove(x: Core, m: Move)
    requires Allowed(x, m)
    ensures Leads(x, Moved(x, m))
  {
    hide Allowed, Moved;
    assert [m][..0] == [];
    assert Through(x, [m]) == Moved(x, m);
  }

  lemma {:induction false} OkIsSized(x: Core)
    requires Ok(x.q, x.last)
    ensures Sized(x)
  {
  }

  lemma {:induction false} TransmitLeads(x: Core, y: Core, fromReliable: bool, now: nat, timeout: nat)
    requires Ok(x.q, x.last)
    requires if fromReliable then x.q.reliable != [] && (x.q.reliable[0].attempts == 0 ==> Permitted(x.q, x.q.reliable[0]))
             else x.q.outgoing != [] && x.q.outgoing[0].acknowledge
    requires y.q == Sent(x.q, fromReliable, now, timeout) && y.counters == x.counters
    requires y.last == Advanced(x.last, if fromReliable then x.q.reliable[0] else x.q.outgoing[0])
    ensures Leads(x, y)
  {
    hide Ok, Sent, Advanced, Permitted, Leads, Sized;
    OkIsSized(x);
    OneMove(x, Transmit(fromReliable, now, timeout));
  }

  lemma {:induction false} LeaveLeads(x: Core, y: Core, n: nat)
    requires Ok(x.q, x.last) && n <= |x.q.outgoing| && forall k :: 0 <= k < n ==> !x.q.outgoing[k].acknowledge
    requires y == x.(q := x.q.(outgoing := x.q.outgoing[n..]))
    ensures Leads(x, y)
  {
    hide Ok, Leads, Sized;
    OkIsSized(x);
    OneMove(x, Leave(n));
  }

  lemma {:induction false} EnqueueLeads(x: Core, y: Core, c: Outgoing)
    requires Ok(x.q, x.last) && !(c.acknowledge && c.packet) && c.attempts == 0 && Given(x.counters, y.counters, c)
    requires if c.packet then c.channel < |x.last| else c.channel == PEER_CHANNEL && c.length == 0
    requires y.q == Queued(x.q, c) && y.last == x.last
    ensures Leads(x, y)
  {
    hide Ok, Queued, Leads, Sized, Given;
    OkIsSized(x);
    OneMove(x, Enqueue(c, y.counters));
  }

  // Timeouts.

  /** The first n sent commands have been looked at. */
  ghost predicate Timed(x: Core, y: Core, n: nat, now: nat) {
    && Sized(y) && y == x.(q := y.q) && y.q.inFlight == x.q.inFlight && y.q.issued == x.q.issued && n <= |x.q.sent|
    && Passed(x.q.sent, n, now, x.q.outgoing, x.q.reliable, y.q.sent, y.q.outgoing, y.q.reliable,
              |Kept(x.q.sent[..n], now)|, |Back(x.q.sent[..n], now, false)|, |Back(x.q.sent[..n], now, true)|)
  }

  /** The walk over the sent commands moves each expired one back. */
  lemma {:induction false} TimeoutsLead(x: Core, n: nat, now: nat) returns (y: Core)
    requires Ok(x.q, x.last) && n <= |x.q.sent|
    ensures Leads(x, y) && Timed(x, y, n, now)
  {
    hide Ok, Expired, Timed, Leads;
    if n == 0 {
      y := x;
      NothingTimed(x, now);
      LeadsItself(x);
    } else {
      var u := TimeoutsLead(x, n - 1, now);
      if Expired(x.q.sent[n - 1], now) {
        y := OneMoreReturn(x, u, n, now);
        LeadsOn(x, u, y);
      } else {
        y := u;
        OneMoreStays(x, u, n, now);
      }
    }
  }

  lemma {:induction false} NothingTimed(x: Core, now: nat)
    requires Ok(x.q, x.last)
    ensures Timed(x, x, 0, now)
  {
    hide Ok;
    OkIsSized(x);
    PassedNone(x.q.sent, now, x.q.outgoing, x.q.reliable);
    assert x.q.sent[..0] == [];
  }

  lemma {:induction false} OneMoreStays(x: Core, u: Core, n: nat, now: nat)
    requires 0 < n <= |x.q.sent| && Timed(x, u, n - 1, now) && !Expired(x.q.sent[n - 1], now)
    ensures Timed(x, u, n, now)
  {
    hide Expired, Passed;
    ThisOne(x, u, n, now);
  }

  lemma {:induction false} ThisOne(x: Core, u: Core, n: nat, now: nat)
    requires 0 < n <= |x.q.sent| && Timed(x, u, n - 1, now)
    ensures var all, k := x.q.sent, |Kept(x.q.sent[..n - 1], now)|;
            var p, r := |Back(all[..n - 1], now, false)|, |Back(all[..n - 1], now, true)|;
            && k < |u.q.sent| && u.q.sent[k] == all[n - 1] && p <= |u.q.outgoing| && r <= |u.q.reliable|
            && u.q.outgoing[..p] == Back(all[..n - 1], now, false) && u.q.reliable[..r] == Back(all[..n - 1], now, true)
            && var c := all[n - 1];
               if !Expired(c, now) then
                 Passed(all, n, now, x.q.outgoing, x.q.reliable, u.q.sent, u.q.outgoing, u.q.reliable,
                        |Kept(all[..n], now)|, |Back(all[..n], now, false)|, |Back(all[..n], now, true)|)
               else if c.packet then
                 Passed(all, n, now, x.q.outgoing, x.q.reliable, Without(u.q.sent, k), u.q.outgoing,
                        Inserted(u.q.reliable, r, Doubled(c)), |Kept(all[..n], now)|, |Back(all[..n], now, false)|, |Back(all[..n], now, true)|)
               else
                 Passed(all, n, now, x.q.outgoing, x.q.reliable, Without(u.q.sent, k),
                        Inserted(u.q.outgoing, p, Doubled(c)), u.q.reliable, |Kept(all[..n], now)|, |Back(all[..n], now, false)|, |Back(all[..n], now, true)|)
  {
    hide Expired, Kept, Back, Without, Inserted;
    var all, k := x.q.sent, |Kept(x.q.sent[..n - 1], now)|;
    var p, r := |Back(all[..n - 1], now, false)|, |Back(all[..n - 1], now, true)|;
    PassedOne(all, n - 1, now, x.q.outgoing, x.q.reliable, u.q.sent, u.q.outgoing, u.q.reliable, k, p, r);
  }

  lemma {:induction false} OneMoreReturn(x: Core, u: Core, n: nat, now: nat) returns (y: Core)
    requires Ok(x.q, x.last) && 0 < n <= |x.q.sent| && Timed(x, u, n - 1, now) && Expired(x.q.sent[n - 1], now)
    ensures Leads(u, y) && Timed(x, y, n, now)
  {
    hide Ok, Expired, Passed, Kept, Back, Without, Inserted, AllAttempted, SendQueues.Bytes, Leads;
    var c, before := x.q.sent[n - 1], x.q.sent[..n - 1];
    var m := Return(|Kept(before, now)|, |Back(before, now, c.packet)|);
    ThisOne(x, u, n, now);
    SentAttempted(x, n);
    BackAttempted(before, now, c.packet);
    y := Moved(u, m);
    OneMove(u, m);
    WithoutOne(u.q.sent, m.k);
  }

  lemma {:induction false} SentAttempted(x: Core, n: nat)
    requires Ok(x.q, x.last) && 0 < n <= |x.q.sent|
    ensures AllAttempted(x.q.sent[..n - 1]) && (!x.q.sent[n - 1].packet ==> x.q.sent[n - 1].length == 0)
  {
    hide Keys, Distinct, WindowsAgree, AttemptedFirst, ChannelOk;
    assert Placed(x.q.sent[n - 1], x.q);
  }

  lemma {:induction false} BackAttempted(s: seq<Outgoing>, now: nat, packet: bool)
    requires AllAttempted(s)
    ensures AllAttempted(Back(s, now, packet))
  {
    hide Expired;
    if s != [] { BackAttempted(s[..|s| - 1], now, packet); }
  }

  /** What a walk that stopped after n sent commands left is what those moves lead to. */
  lemma {:induction false} TimedOutLeads(x: Core, y: Core, n: nat, now: nat)
    requires Ok(x.q, x.last) && y == x.(q := y.q) && y.q.inFlight == x.q.inFlight && y.q.issued == x.q.issued && Sized(y)
    requires TimedOut(x.q.sent, n, now, x.q.outgoing, x.q.reliable, y.q.sent, y.q.outgoing, y.q.reliable)
    ensures Leads(x, y)
  {
    hide Ok, Expired, Kept, Back, Leads, SendQueues.Bytes;
    var z := TimeoutsLead(x, n, now);
    assert z == y;
  }
}
