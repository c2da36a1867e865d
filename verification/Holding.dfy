/** Which reliable commands the windows and the throttle hold back, and how far a walk over their list comes. */
module Holding {
  import opened Delivery
  import opened SendQueues

  /** Whether command c may not be sent: it would open a window too early, or there is too much data in transit. */
  predicate Stopped(inFlight: seq<set<nat>>, transit: nat, allowance: nat, c: Outgoing) {
    || (c.channel < |inFlight| && c.attempts < 1 && !MaySend(inFlight[c.channel], c.number))
    || (c.packet && transit + c.length > allowance)
  }

  /** How many commands of the list a walk with room for all of them sends: the first one held back ends it. */
  function Reach(s: seq<Outgoing>, inFlight: seq<set<nat>>, transit: nat, allowance: nat): (n: nat)
    ensures n <= |s|
  {
    if s == [] || Stopped(inFlight, transit, allowance, s[0]) then 0
    else 1 + Reach(s[1..], Entered(inFlight, s[0]), transit + s[0].length, allowance)
  }

  /** The windows once the commands of s have been sent. */
  function EnteredAll(inFlight: seq<set<nat>>, s: seq<Outgoing>): seq<set<nat>>
    decreases |s|
  {
    if s == [] then inFlight else EnteredAll(Entered(inFlight, s[0]), s[1..])
  }

  /** Command k of the list is held back when those in front of it have been sent. */
  predicate StoppedAt(s: seq<Outgoing>, inFlight: seq<set<nat>>, transit: nat, allowance: nat, k: nat)
    requires k < |s|
  {
    Stopped(EnteredAll(inFlight, s[..k]), transit + SendQueues.Bytes(s[..k]), allowance, s[k])
  }

  /** A command is left in the list if and only if it, or one in front of it, is held back when the walk gets there:
      whether windows and throttle permit the command itself does not matter behind one that they do not. */
  lemma {:induction false} LeftExactly(s: seq<Outgoing>, inFlight: seq<set<nat>>, transit: nat, allowance: nat, k: nat)
    requires k < |s|
    ensures k >= Reach(s, inFlight, transit, allowance) <==>
            exists i :: 0 <= i <= k && StoppedAt(s, inFlight, transit, allowance, i)
  {
    hide Stopped, Entered;
    assert s[..0] == [];
    if Stopped(inFlight, transit, allowance, s[0]) {
      assert StoppedAt(s, inFlight, transit, allowance, 0);
    } else {
      var t, flight, bytes := s[1..], Entered(inFlight, s[0]), transit + s[0].length;
      forall i: nat | 0 < i < |s|
        ensures StoppedAt(s, inFlight, transit, allowance, i) <==> StoppedAt(t, flight, bytes, allowance, i - 1)
      {
        assert s[..i][1..] == t[..i - 1] && s[..i][0] == s[0];
      }
      if k > 0 {
        LeftExactly(t, flight, bytes, allowance, k - 1);
        if i: nat :| i <= k - 1 && StoppedAt(t, flight, bytes, allowance, i) {
          assert StoppedAt(s, inFlight, transit, allowance, i + 1);
        }
        if i: nat :| i <= k && StoppedAt(s, inFlight, transit, allowance, i) {
          assert StoppedAt(t, flight, bytes, allowance, i - 1);
        }
      }
    }
  }

  /** When the head is held back, something the windows and the throttle permit is left if and only if it stands behind a
      command that they hold back. */
  lemma {:induction false} PermittedLeft(s: seq<Outgoing>, inFlight: seq<set<nat>>, transit: nat, allowance: nat)
    requires s != [] ==> Stopped(inFlight, transit, allowance, s[0])
    ensures (exists k :: 0 <= k < |s| && !Stopped(inFlight, transit, allowance, s[k])) <==>
            (exists i, k :: 0 <= i < k < |s|
                            && Stopped(inFlight, transit, allowance, s[i]) && !Stopped(inFlight, transit, allowance, s[k]))
  {
    hide Stopped;
    if k :| 0 <= k < |s| && !Stopped(inFlight, transit, allowance, s[k]) {
      assert k != 0;
    }
  }

  /** Sending the head of the list is one step of the walk; a command of no channel is none. */
  lemma {:induction false} ReachAfter(q: Queues, fromReliable: bool, now: nat, timeout: nat, allowance: nat)
    requires if fromReliable then q.reliable != [] && !Stopped(q.inFlight, q.transit, allowance, q.reliable[0])
             else q.outgoing != [] && q.outgoing[0].channel >= |q.inFlight| && q.outgoing[0].length == 0
    ensures var r := Sent(q, fromReliable, now, timeout);
            Reach(r.reliable, r.inFlight, r.transit, allowance) + (if fromReliable then 1 else 0)
            == Reach(q.reliable, q.inFlight, q.transit, allowance)
  {
    hide Stopped;
  }
}
