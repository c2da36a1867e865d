/** When commands count as lost: 32-bit times, and what the walk over the sent commands does. */
module Timeouts {
  import opened SendQueues

  const TIME_OVERFLOW := 86400000
  const TIME_SPAN := 0x1_0000_0000

  /** Times are 32 bits and wrap. */
  function Minus(a: nat, b: nat): nat { (a - b) % TIME_SPAN }

  predicate TimeLess(a: nat, b: nat) { Minus(a, b) >= TIME_OVERFLOW }

  function TimeDifference(a: nat, b: nat): nat { if Minus(a, b) >= TIME_OVERFLOW then Minus(b, a) else Minus(a, b) }

  predicate Expired(c: Outgoing, now: nat) { TimeDifference(now, c.sentTime) >= c.timeout }

  function Power(n: nat): nat { if n == 0 then 1 else 2 * Power(n - 1) }

  datatype TimeoutLimits = TimeoutLimits(limit: nat, minimum: nat, maximum: nat)

  function Earlier(c: Outgoing, earliest: nat): nat {
    if earliest == 0 || TimeLess(c.sentTime, earliest) then c.sentTime else earliest
  }

  /** earliestTimeout after the commands of s. */
  function Earliest(s: seq<Outgoing>, now: nat, start: nat): nat {
    if s == [] then start
    else
      var e, c := Earliest(s[..|s| - 1], now, start), s[|s| - 1];
      if Expired(c, now) then Earlier(c, e) else e
  }

  /** A peer is given up when the earliest unanswered command is too old, or old enough and tried too often. */
  predicate GivesUp(c: Outgoing, earliest: nat, now: nat, l: TimeoutLimits) {
    && earliest != 0
    && (TimeDifference(now, earliest) >= l.maximum
        || (c.attempts > 0 && Power(c.attempts - 1) >= l.limit && TimeDifference(now, earliest) >= l.minimum))
  }

  /** The first n commands give no reason to give the peer up. */
  ghost predicate NoneGivenUp(all: seq<Outgoing>, n: nat, now: nat, start: nat, l: TimeoutLimits) {
    n <= |all| && forall j :: 0 <= j < n && Expired(all[j], now) ==> !GivesUp(all[j], Earliest(all[..j + 1], now, start), now, l)
  }

  /** Command n is the first that does. */
  ghost predicate FirstGivenUp(all: seq<Outgoing>, n: nat, now: nat, start: nat, l: TimeoutLimits) {
    && NoneGivenUp(all, n, now, start, l) && n < |all| && Expired(all[n], now)
    && GivesUp(all[n], Earliest(all[..n + 1], now, start), now, l)
  }

  lemma {:induction false} NobodyYet(all: seq<Outgoing>, now: nat, start: nat, l: TimeoutLimits)
    ensures Earliest(all[..0], now, start) == start && NoneGivenUp(all, 0, now, start, l)
  {
  }

  lemma {:induction false} OneMoreInTime(all: seq<Outgoing>, n: nat, now: nat, start: nat, l: TimeoutLimits)
    requires n < |all| && NoneGivenUp(all, n, now, start, l) && !Expired(all[n], now)
    ensures NoneGivenUp(all, n + 1, now, start, l) && Earliest(all[..n + 1], now, start) == Earliest(all[..n], now, start)
  {
    hide Expired, GivesUp;
    assert all[..n + 1][..n] == all[..n];
  }

  lemma {:induction false} OneMoreLate(all: seq<Outgoing>, n: nat, now: nat, start: nat, l: TimeoutLimits)
    requires n < |all| && NoneGivenUp(all, n, now, start, l) && Expired(all[n], now)
    ensures Earliest(all[..n + 1], now, start) == Earlier(all[n], Earliest(all[..n], now, start))
    ensures if GivesUp(all[n], Earliest(all[..n + 1], now, start), now, l) then FirstGivenUp(all, n, now, start, l)
            else NoneGivenUp(all, n + 1, now, start, l)
  {
    hide Expired, GivesUp, Earlier;
    assert all[..n + 1][..n] == all[..n];
  }

  function Doubled(c: Outgoing): Outgoing { c.(timeout := c.timeout * 2) }

  /** The commands that have not expired, and those that have, with their timeouts doubled. */
  function Kept(s: seq<Outgoing>, now: nat): seq<Outgoing> {
    if s == [] then [] else Kept(s[..|s| - 1], now) + if Expired(s[|s| - 1], now) then [] else [s[|s| - 1]]
  }

  function Back(s: seq<Outgoing>, now: nat, packet: bool): seq<Outgoing> {
    if s == [] then []
    else
      var c := s[|s| - 1];
      Back(s[..|s| - 1], now, packet) + if Expired(c, now) && c.packet == packet then [Doubled(c)] else []
  }

  /** Of the first n sent commands the expired ones are back at the heads of their lists, in order. */
  ghost predicate TimedOut(all: seq<Outgoing>, n: nat, now: nat, outgoing: seq<Outgoing>, reliable: seq<Outgoing>,
                           sent': seq<Outgoing>, outgoing': seq<Outgoing>, reliable': seq<Outgoing>) {
    && n <= |all| && sent' == Kept(all[..n], now) + all[n..]
    && outgoing' == Back(all[..n], now, false) + outgoing && reliable' == Back(all[..n], now, true) + reliable
  }

  ghost predicate Passed(all: seq<Outgoing>, n: nat, now: nat, outgoing: seq<Outgoing>, reliable: seq<Outgoing>,
                         sent': seq<Outgoing>, outgoing': seq<Outgoing>, reliable': seq<Outgoing>, k: nat, p: nat, r: nat) {
    && TimedOut(all, n, now, outgoing, reliable, sent', outgoing', reliable')
    && k == |Kept(all[..n], now)| && p == |Back(all[..n], now, false)| && r == |Back(all[..n], now, true)|
  }

  lemma {:induction false} PassedNone(all: seq<Outgoing>, now: nat, outgoing: seq<Outgoing>, reliable: seq<Outgoing>)
    ensures Passed(all, 0, now, outgoing, reliable, all, outgoing, reliable, 0, 0, 0)
  {
    assert all[..0] == [];
    assert [] + all[0..] == all && [] + outgoing == outgoing && [] + reliable == reliable;
  }

  /** What the next step of the loop leaves, whether the command has expired or not. */
  lemma {:induction false} PassedOne(all: seq<Outgoing>, n: nat, now: nat, outgoing: seq<Outgoing>, reliable: seq<Outgoing>,
                                     sent: seq<Outgoing>, out: seq<Outgoing>, rel: seq<Outgoing>, k: nat, p: nat, r: nat)
    requires Passed(all, n, now, outgoing, reliable, sent, out, rel, k, p, r) && k < |sent|
    ensures p <= |out| && r <= |rel| && n < |all| && sent[k] == all[n]
    ensures var c := sent[k];
            if !Expired(c, now) then Passed(all, n + 1, now, outgoing, reliable, sent, out, rel, k + 1, p, r)
            else if c.packet then
              Passed(all, n + 1, now, outgoing, reliable, Without(sent, k), out, Inserted(rel, r, Doubled(c)), k, p, r + 1)
            else
              Passed(all, n + 1, now, outgoing, reliable, Without(sent, k), Inserted(out, p, Doubled(c)), rel, k, p + 1, r)
  {
    hide Expired;
    var c := sent[k];
    assert c == all[n] && all[..n + 1][..n] == all[..n] && all[n..] == [c] + all[n + 1..];
    assert Kept(all[..n + 1], now) == Kept(all[..n], now) + if Expired(c, now) then [] else [c];
    assert sent[..k] == Kept(all[..n], now) && sent[k + 1..] == all[n + 1..];
    assert out[..p] == Back(all[..n], now, false) && out[p..] == outgoing;
    assert rel[..r] == Back(all[..n], now, true) && rel[r..] == reliable;
  }

  lemma {:induction false} PassedAll(all: seq<Outgoing>, n: nat, now: nat, outgoing: seq<Outgoing>, reliable: seq<Outgoing>,
                                     sent: seq<Outgoing>, out: seq<Outgoing>, rel: seq<Outgoing>, k: nat, p: nat, r: nat)
    requires Passed(all, n, now, outgoing, reliable, sent, out, rel, k, p, r)
    ensures TimedOut(all, n, now, outgoing, reliable, sent, out, rel)
    ensures k == |sent| ==> n == |all|
  {
  }

  function ExpiredCount(s: seq<Outgoing>, now: nat): nat {
    if s == [] then 0 else ExpiredCount(s[..|s| - 1], now) + if Expired(s[|s| - 1], now) then 1 else 0
  }

  lemma {:induction false} ExpiredJoin(s: seq<Outgoing>, t: seq<Outgoing>, now: nat)
    ensures ExpiredCount(s + t, now) == ExpiredCount(s, now) + ExpiredCount(t, now)
  {
    hide Expired;
    if t == [] {
      assert s + t == s;
    } else {
      ExpiredJoin(s, t[..|t| - 1], now);
      assert (s + t)[..|s + t| - 1] == s + t[..|t| - 1];
    }
  }

  lemma {:induction false} NoneCounted(s: seq<Outgoing>, now: nat)
    ensures ExpiredCount(s[..0], now) == 0
  {
  }

  lemma {:induction false} OneMoreCounted(s: seq<Outgoing>, n: nat, now: nat)
    ensures n < |s| ==> ExpiredCount(s[..n + 1], now) == ExpiredCount(s[..n], now) + if Expired(s[n], now) then 1 else 0
  {
    hide Expired;
    if n < |s| { assert s[..n + 1][..n] == s[..n]; }
  }

  lemma {:induction false} ExpiredOne(c: Outgoing, now: nat)
    ensures ExpiredCount([c], now) == if Expired(c, now) then 1 else 0
  {
    hide Expired;
    assert [c][..0] == [];
  }

  lemma {:induction false} ExpiredWithout(s: seq<Outgoing>, k: nat, now: nat)
    requires k < |s|
    ensures ExpiredCount(s, now) == ExpiredCount(Without(s, k), now) + if Expired(s[k], now) then 1 else 0
  {
    hide Expired, ExpiredCount;
    assert s == s[..k] + ([s[k]] + s[k + 1..]);
    ExpiredJoin(s[..k], [s[k]] + s[k + 1..], now);
    ExpiredJoin([s[k]], s[k + 1..], now);
    ExpiredJoin(s[..k], s[k + 1..], now);
    ExpiredOne(s[k], now);
  }

  lemma {:induction false} JustSent(s: seq<Outgoing>, c: Outgoing, now: nat)
    requires c.sentTime == now && c.timeout > 0
    ensures ExpiredCount(s + [c], now) == ExpiredCount(s, now)
  {
    ExpiredJoin(s, [c], now);
    ExpiredOne(c, now);
  }
}
