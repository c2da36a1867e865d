/** Which command an acknowledgement is for. */
module Matching {
  import opened Windows
  import opened Delivery
  import opened SendQueues

  /** An acknowledgement for 16 bits of a channel is about this command. */
  predicate Matches(c: Outgoing, sequence: nat, channelID: nat) { c.channel == channelID && Wire(c.number) == sequence }

  /** `enet_protocol_find_sent_reliable_command`: the search stops at the first command never sent. */
  method FindSent(list: seq<Outgoing>, sequence: nat, channelID: nat) returns (k: nat)
    requires AttemptedFirst(list)
    ensures k <= |list|
    ensures k < |list| ==> list[k].acknowledge && list[k].attempts > 0 && Matches(list[k], sequence, channelID)
    ensures k == |list| ==> NoneMatches(list, sequence, channelID)
  {
    k := 0;
    while k < |list|
      invariant k <= |list|
      invariant NoneMatches(list[..k], sequence, channelID)
    {
      if list[k].acknowledge {
        if list[k].attempts < 1 {
          BreakMissesNothing(list, k, sequence, channelID);
          return |list|;
        }
        if Wire(list[k].number) == sequence && list[k].channel == channelID {
          return;
        }
      }
      assert list[..k + 1] == list[..k] + [list[k]];
      k := k + 1;
    }
    assert list[..k] == list;
  }

  /** The loop over sentReliableCommands, where every command was sent. */
  method FindAny(list: seq<Outgoing>, sequence: nat, channelID: nat) returns (k: nat)
    ensures k <= |list|
    ensures k < |list| ==> Matches(list[k], sequence, channelID)
    ensures k == |list| ==> NoneMatches(list, sequence, channelID)
  {
    k := 0;
    while k < |list| && !(Wire(list[k].number) == sequence && list[k].channel == channelID)
      invariant k <= |list| && NoneMatches(list[..k], sequence, channelID)
    {
      assert list[..k + 1] == list[..k] + [list[k]];
      k := k + 1;
    }
    assert list[..k] == list || k < |list|;
  }

  ghost predicate NoneMatches(list: seq<Outgoing>, sequence: nat, channelID: nat) {
    forall c :: c in list && c.acknowledge && c.attempts > 0 ==> !Matches(c, sequence, channelID)
  }

  /** Behind a command never sent there is none that was sent. */
  lemma {:induction false} BreakMissesNothing(list: seq<Outgoing>, k: nat, sequence: nat, channelID: nat)
    requires AttemptedFirst(list) && k < |list| && list[k].acknowledge && list[k].attempts == 0
    requires NoneMatches(list[..k], sequence, channelID)
    ensures NoneMatches(list, sequence, channelID)
  {
    forall c | c in list && c.acknowledge && c.attempts > 0 ensures !Matches(c, sequence, channelID) {
      var a :| 0 <= a < |list| && list[a] == c;
      assert a < k;
      assert list[..k][a] == c;
    }
  }

  /** On a channel, 16 bits single out one command in flight. */
  lemma {:induction false} MatchIsUnique(q: Queues, last: seq<nat>, p: Place, r: Place)
    requires Ok(q, last) && Holds(q, p) && Holds(q, r)
    requires At(q, p)[p.k].channel == At(q, r)[r.k].channel < |q.inFlight|
    requires Wire(At(q, p)[p.k].number) == Wire(At(q, r)[r.k].number)
    ensures Key(At(q, p)[p.k]) == Key(At(q, r)[r.k])
  {
    hide Keys, SendQueues.Bytes, Unsent, AttemptedFirst, Distinct, Attempted;
    var c, d := At(q, p)[p.k], At(q, r)[r.k];
    var ch := c.channel;
    InFlightHere(q, last, p);
    InFlightHere(q, last, r);
    assert ChannelOk(q, last[ch], ch);
    WindowsApart(c.number, last[ch]);
    WindowsApart(d.number, last[ch]);
    if c.number < d.number { WireInjective(c.number, d.number); }
    if d.number < c.number { WireInjective(d.number, c.number); }
  }

  lemma {:induction false} InFlightHere(q: Queues, last: seq<nat>, p: Place)
    requires Ok(q, last) && Holds(q, p) && At(q, p)[p.k].channel < |q.inFlight|
    ensures var c := At(q, p)[p.k]; c.number in q.inFlight[c.channel]
  {
    var c := At(q, p)[p.k];
    assert q.inFlight[c.channel] == Attempted(q.sent, c.channel) + Attempted(q.reliable, c.channel);
    assert c in At(q, p);
    assert p.InOutgoing? ==> !c.packet && Placed(c, q);
  }

  /** No command in flight is the one acknowledged. */
  ghost predicate Unmatched(q: Queues, sequence: nat, channelID: nat) {
    forall p :: Holds(q, p) ==> !Matches(At(q, p)[p.k], sequence, channelID)
  }

  lemma {:induction false} NothingMatches(q: Queues, sequence: nat, channelID: nat)
    requires NoneMatches(q.sent, sequence, channelID) && NoneMatches(q.outgoing, sequence, channelID)
    requires NoneMatches(q.reliable, sequence, channelID)
    ensures Unmatched(q, sequence, channelID)
  {
    forall p | Holds(q, p) ensures !Matches(At(q, p)[p.k], sequence, channelID) {
      assert At(q, p)[p.k] in At(q, p);
    }
  }

  /** The command c in place p, and nothing else, is taken out. */
  ghost predicate Takes(q: Queues, r: Queues, p: Place, c: Outgoing) {
    Holds(q, p) && At(q, p)[p.k] == c && SendQueues.Bytes(q.sent) == q.transit && r == Removed(q, p)
  }
}
