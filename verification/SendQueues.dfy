/** The queues of commands a peer has yet to send, or has sent and keeps until they are acknowledged. */
module SendQueues {
  import opened Windows
  import opened Delivery
  import opened Commands

  /** `number` is the unbounded sequence number; the command carries `Wire(number)`. */
  datatype Outgoing = Outgoing(channel: nat, number: nat, unreliable: nat, acknowledge: bool, packet: bool,
                               kind: Kind, offset: nat, length: nat, attempts: nat, sentTime: nat, timeout: nat,
                               queueTime: nat)

  /** sentReliableCommands, outgoingCommands, outgoingSendReliableCommands, reliableDataInTransit, and for each
      channel what its window counters count and the last number given to a packet. */
  datatype Queues = Queues(sent: seq<Outgoing>, outgoing: seq<Outgoing>, reliable: seq<Outgoing>, transit: nat,
                           inFlight: seq<set<nat>>, issued: seq<nat>)

  function Key(c: Outgoing): (nat, nat) { (c.channel, c.number) }

  function Keys(s: seq<Outgoing>): multiset<(nat, nat)> {
    if s == [] then multiset{}
    else KeyOf(s[0]) + Keys(s[1..])
  }

  function KeyOf(c: Outgoing): multiset<(nat, nat)> { if c.acknowledge then multiset{Key(c)} else multiset{} }

  /** Every command that is to be acknowledged, wherever it waits. */
  function Waiting(q: Queues): multiset<(nat, nat)> { Keys(q.sent) + Keys(q.outgoing) + Keys(q.reliable) }

  function Bytes(s: seq<Outgoing>): nat { if s == [] then 0 else s[0].length + Bytes(s[1..]) }

  /** The numbers of a channel that have been transmitted, among the commands of a list. */
  function Attempted(s: seq<Outgoing>, ch: nat): set<nat> {
    set c | c in s && c.acknowledge && c.attempts > 0 && c.channel == ch :: c.number
  }

  /** The numbers of a channel that have not, in order. */
  function Unsent(s: seq<Outgoing>, ch: nat): seq<nat> {
    if s == [] then []
    else UnsentOf(s[0], ch) + Unsent(s[1..], ch)
  }

  function UnsentOf(c: Outgoing, ch: nat): seq<nat> {
    if c.acknowledge && c.attempts == 0 && c.channel == ch then [c.number] else []
  }

  predicate Consecutive(numbers: seq<nat>, last: nat) {
    forall k :: 0 <= k < |numbers| ==> numbers[k] == last + 1 + k
  }

  /** Transmitted commands wait before all others. */
  predicate AttemptedFirst(s: seq<Outgoing>) {
    forall a, b :: 0 <= a < b < |s| && s[b].acknowledge && s[b].attempts > 0 ==> s[a].acknowledge && s[a].attempts > 0
  }

  predicate Shaped(q: Queues) {
    && (forall c :: c in q.sent ==> c.acknowledge && c.attempts > 0 && Placed(c, q))
    && (forall c :: c in q.outgoing && c.acknowledge ==> !c.packet && Placed(c, q))
    && (forall c :: c in q.reliable ==> c.acknowledge && c.packet && Placed(c, q))
  }

  /** A reliable command carries a packet exactly when it belongs to a channel. */
  predicate Placed(c: Outgoing, q: Queues) {
    if c.packet then c.channel < |q.inFlight| else c.channel >= |q.inFlight| && c.length == 0
  }

  ghost predicate Distinct(q: Queues) { forall k :: Waiting(q)[k] <= 1 }

  ghost predicate WindowsAgree(q: Queues) {
    forall ch :: 0 <= ch < |q.inFlight| ==> q.inFlight[ch] == Attempted(q.sent, ch) + Attempted(q.reliable, ch)
  }

  /** A channel transmits its numbers in order, and what is in flight lies in seven windows. */
  ghost predicate ChannelOk(q: Queues, last: nat, ch: nat)
    requires ch < |q.inFlight| && ch < |q.issued|
  {
    && Consecutive(Unsent(q.reliable, ch), last) && q.issued[ch] == last + |Unsent(q.reliable, ch)|
    && forall n :: n in q.inFlight[ch] ==> 1 <= n <= last && WindowOf(last) <= WindowOf(n) + 6
  }

  /** `last` holds for each channel the last number transmitted for the first time. */
  ghost predicate Ok(q: Queues, last: seq<nat>) {
    && q.transit == Bytes(q.sent) && Shaped(q) && Distinct(q) && WindowsAgree(q)
    && AttemptedFirst(q.outgoing) && AttemptedFirst(q.reliable)
    && |last| == |q.inFlight| == |q.issued| && forall ch :: 0 <= ch < |last| ==> ChannelOk(q, last[ch], ch)
  }

  /** A peer that has queued nothing yet. */
  function Fresh(channelCount: nat): (q: Queues)
    ensures q.sent == q.outgoing == q.reliable == [] && q.transit == 0 && |q.inFlight| == |q.issued| == channelCount
    ensures forall ch :: 0 <= ch < channelCount ==> q.inFlight[ch] == {} && q.issued[ch] == 0
  {
    Queues([], [], [], 0, seq(channelCount, _ => {}), seq(channelCount, _ => 0))
  }

  lemma {:induction false} FreshOk(channelCount: nat)
    ensures Ok(Fresh(channelCount), Fresh(channelCount).issued) && Waiting(Fresh(channelCount)) == multiset{}
  {
    hide Fresh;
    NoCommands();
  }

  // Facts about lists.

  lemma {:induction false} Tail(s: seq<Outgoing>)
    requires s != []
    ensures Keys(s) == KeyOf(s[0]) + Keys(s[1..]) && Bytes(s) == s[0].length + Bytes(s[1..])
    ensures forall ch :: Unsent(s, ch) == UnsentOf(s[0], ch) + Unsent(s[1..], ch)
  {
  }

  lemma {:induction false} NoCommands()
    ensures Keys([]) == multiset{} && Bytes([]) == 0 && forall ch :: Unsent([], ch) == []
  {
  }

  lemma {:induction false} KeysJoin(a: seq<Outgoing>, b: seq<Outgoing>)
    ensures Keys(a + b) == Keys(a) + Keys(b) && Bytes(a + b) == Bytes(a) + Bytes(b)
    ensures forall ch :: Unsent(a + b, ch) == Unsent(a, ch) + Unsent(b, ch)
  {
    hide Keys, Bytes, Unsent, KeyOf, UnsentOf;
    if a == [] {
      NoCommands();
      assert a + b == b;
    } else {
      Tail(a);
      Tail(a + b);
      KeysJoin(a[1..], b);
      assert (a + b)[1..] == a[1..] + b;
    }
  }

  lemma {:induction false} OneKey(c: Outgoing)
    ensures Keys([c]) == KeyOf(c) && Bytes([c]) == c.length && forall ch :: Unsent([c], ch) == UnsentOf(c, ch)
  {
    assert [c][1..] == [];
  }

  lemma {:induction false} KeyOfMember(s: seq<Outgoing>, c: Outgoing)
    requires c in s && c.acknowledge
    ensures Keys(s)[Key(c)] > 0
  {
    if s[0] != c { KeyOfMember(s[1..], c); }
  }

  /** Taking out element k. */
  function Without(s: seq<Outgoing>, k: nat): (t: seq<Outgoing>)
    requires k < |s|
    ensures |t| == |s| - 1
  {
    s[..k] + s[k + 1..]
  }

  lemma {:induction false} WithoutOne(s: seq<Outgoing>, k: nat)
    requires k < |s|
    ensures Keys(s) == Keys(Without(s, k)) + KeyOf(s[k]) && Bytes(s) == Bytes(Without(s, k)) + s[k].length
    ensures s[k].attempts > 0 ==> forall ch :: Unsent(Without(s, k), ch) == Unsent(s, ch)
    ensures forall c :: c in s <==> c == s[k] || c in Without(s, k)
  {
    hide KeyOf, Keys, Bytes, Unsent;
    assert s == s[..k] + ([s[k]] + s[k + 1..]);
    KeysJoin(s[..k], [s[k]] + s[k + 1..]);
    KeysJoin([s[k]], s[k + 1..]);
    KeysJoin(s[..k], s[k + 1..]);
    OneKey(s[k]);
  }

  /** When keys are distinct, taking a transmitted command out of a list takes its number out of flight. */
  lemma {:induction false} AttemptedWithout(s: seq<Outgoing>, k: nat, ch: nat)
    requires k < |s| && s[k].acknowledge && s[k].attempts > 0 && Keys(s)[Key(s[k])] <= 1
    ensures Attempted(Without(s, k), ch) == Attempted(s, ch) - if s[k].channel == ch then {s[k].number} else {}
    ensures s[k].channel == ch ==> s[k].number in Attempted(s, ch)
  {
    WithoutOne(s, k);
    OneKey(s[k]);
    forall c | c in Without(s, k) && c.acknowledge ensures Key(c) != Key(s[k]) {
      KeyOfMember(Without(s, k), c);
    }
  }

  lemma {:induction false} NotAttempted(s: seq<Outgoing>, ch: nat, n: nat)
    requires Keys(s)[(ch, n)] == 0
    ensures n !in Attempted(s, ch)
  {
    forall c | c in s && c.acknowledge && Key(c) == (ch, n) ensures false {
      KeyOfMember(s, c);
    }
  }

  // Acknowledgement.

  /** The command an acknowledgement takes out: it is in one of the lists, transmitted. */
  datatype Place = InSent(k: nat) | InOutgoing(k: nat) | InReliable(k: nat)

  function At(q: Queues, p: Place): seq<Outgoing> {
    match p case InSent(_) => q.sent case InOutgoing(_) => q.outgoing case InReliable(_) => q.reliable
  }

  predicate Holds(q: Queues, p: Place) {
    p.k < |At(q, p)| && At(q, p)[p.k].acknowledge && At(q, p)[p.k].attempts > 0
  }

  function Released(inFlight: seq<set<nat>>, c: Outgoing): seq<set<nat>> {
    if c.channel < |inFlight| then inFlight[c.channel := inFlight[c.channel] - {c.number}] else inFlight
  }

  /** The queues once the command at p has been acknowledged. */
  function Removed(q: Queues, p: Place): Queues
    requires Holds(q, p) && Bytes(q.sent) == q.transit
  {
    var c := At(q, p)[p.k];
    var r := q.(inFlight := Released(q.inFlight, c));
    match p
    case InSent(k) =>
      WithoutOne(q.sent, k);
      r.(sent := Without(q.sent, k), transit := q.transit - c.length)
    case InOutgoing(k) => r.(outgoing := Without(q.outgoing, k))
    case InReliable(k) => r.(reliable := Without(q.reliable, k))
  }

  /** An acknowledgement takes one command out of the queues and leaves the others as they were. */
  lemma {:induction false} RemovedOk(q: Queues, last: seq<nat>, p: Place)
    requires Ok(q, last) && Holds(q, p)
    ensures Ok(Removed(q, p), last)
    ensures Waiting(Removed(q, p)) == Waiting(q) - multiset{Key(At(q, p)[p.k])}
    ensures Waiting(q)[Key(At(q, p)[p.k])] == 1
  {
    hide Keys, Bytes, AttemptedFirst, ChannelOk, WindowsAgree, Shaped, Waiting, Distinct;
    RemovedWaiting(q, p);
    RemovedShaped(q, p);
    RemovedChannels(q, last, p);
    if !p.InSent? { WithoutKeepsOrder(At(q, p), p.k); }
  }

  lemma {:induction false} RemovedWaiting(q: Queues, p: Place)
    requires Distinct(q) && Holds(q, p) && q.transit == Bytes(q.sent)
    ensures Waiting(Removed(q, p)) == Waiting(q) - multiset{Key(At(q, p)[p.k])}
    ensures Waiting(q)[Key(At(q, p)[p.k])] == 1 && Distinct(Removed(q, p))
    ensures Removed(q, p).transit == Bytes(Removed(q, p).sent)
  {
    hide Keys, Bytes, Unsent, Without;
    var c := At(q, p)[p.k];
    RemovedKeys(q, p);
    assert Waiting(q)[Key(c)] <= 1;
    assert forall k :: Waiting(Removed(q, p))[k] <= Waiting(q)[k];
  }

  lemma {:induction false} RemovedKeys(q: Queues, p: Place)
    requires Holds(q, p) && q.transit == Bytes(q.sent)
    ensures Waiting(q) == Waiting(Removed(q, p)) + multiset{Key(At(q, p)[p.k])}
    ensures Removed(q, p).transit == Bytes(Removed(q, p).sent)
  {
    hide Keys, Bytes, Unsent, Without;
    WithoutOne(At(q, p), p.k);
  }

  lemma {:induction false} RemovedShaped(q: Queues, p: Place)
    requires Shaped(q) && Holds(q, p) && q.transit == Bytes(q.sent)
    ensures Shaped(Removed(q, p))
  {
    hide Keys, Bytes;
    var r := Removed(q, p);
    WithoutOne(At(q, p), p.k);
    assert |r.inFlight| == |q.inFlight|;
  }

  lemma {:induction false} RemovedChannels(q: Queues, last: seq<nat>, p: Place)
    requires Ok(q, last) && Holds(q, p)
    ensures var r := Removed(q, p); WindowsAgree(r) && forall ch :: 0 <= ch < |last| ==> ChannelOk(r, last[ch], ch)
  {
    hide Keys, Bytes, AttemptedFirst, ChannelOk;
    forall ch: nat | ch < |last|
      ensures var r := Removed(q, p);
              ChannelOk(r, last[ch], ch) && r.inFlight[ch] == Attempted(r.sent, ch) + Attempted(r.reliable, ch)
    {
      RemovedChannel(q, last, p, ch);
    }
  }

  lemma {:induction false} WithoutKeepsOrder(s: seq<Outgoing>, k: nat)
    requires k < |s| && AttemptedFirst(s)
    ensures AttemptedFirst(Without(s, k))
  {
    var t := Without(s, k);
    assert forall a :: 0 <= a < |t| ==> t[a] == s[if a < k then a else a + 1];
  }

  lemma {:induction false} KeyOnce(q: Queues, p: Place)
    requires Distinct(q) && Holds(q, p)
    ensures var c := At(q, p)[p.k];
            && Keys(q.sent)[Key(c)] == (if p.InSent? then 1 else 0)
            && Keys(q.outgoing)[Key(c)] == (if p.InOutgoing? then 1 else 0)
            && Keys(q.reliable)[Key(c)] == (if p.InReliable? then 1 else 0)
  {
    var c := At(q, p)[p.k];
    KeyOfMember(At(q, p), c);
    assert Waiting(q)[Key(c)] <= 1;
  }

  lemma {:induction false} RemovedChannel(q: Queues, last: seq<nat>, p: Place, ch: nat)
    requires Ok(q, last) && Holds(q, p) && ch < |last|
    ensures var r := Removed(q, p);
            ChannelOk(r, last[ch], ch) && r.inFlight[ch] == Attempted(r.sent, ch) + Attempted(r.reliable, ch)
  {
    hide Keys, Bytes, AttemptedFirst, Attempted, Unsent, Without, Consecutive;
    var s, c := At(q, p), At(q, p)[p.k];
    KeyOnce(q, p);
    AttemptedWithout(s, p.k, ch);
    assert q.inFlight[ch] == Attempted(q.sent, ch) + Attempted(q.reliable, ch);
    if c.channel == ch {
      if p.InSent? { NotAttempted(q.reliable, ch, c.number); }
      if p.InReliable? { NotAttempted(q.sent, ch, c.number); }
    }
    if p.InReliable? { WithoutOne(q.reliable, p.k); }
    if p.InOutgoing? { assert Placed(c, q); }
    assert Removed(q, p).inFlight[ch] == q.inFlight[ch] - (if c.channel == ch then {c.number} else {});
    assert ChannelOk(q, last[ch], ch);
  }

  // Transmission.

  /** The command as it goes to the sent list. */
  function Transmitted(c: Outgoing, now: nat, timeout: nat): Outgoing {
    c.(attempts := c.attempts + 1, sentTime := now, timeout := timeout)
  }

  /** The windows count a number when it is transmitted for the first time. */
  function Entered(inFlight: seq<set<nat>>, c: Outgoing): seq<set<nat>> {
    if c.channel < |inFlight| && c.attempts == 0 then inFlight[c.channel := inFlight[c.channel] + {c.number}] else inFlight
  }

  /** The head of outgoingSendReliableCommands, or of outgoingCommands, is sent. */
  function Sent(q: Queues, fromReliable: bool, now: nat, timeout: nat): Queues
    requires if fromReliable then q.reliable != [] else q.outgoing != []
  {
    var c := if fromReliable then q.reliable[0] else q.outgoing[0];
    q.(sent := q.sent + [Transmitted(c, now, timeout)], transit := q.transit + c.length,
       inFlight := Entered(q.inFlight, c),
       outgoing := if fromReliable then q.outgoing else q.outgoing[1..],
       reliable := if fromReliable then q.reliable[1..] else q.reliable)
  }

  function Advanced(last: seq<nat>, c: Outgoing): seq<nat> {
    if c.channel < |last| && c.attempts == 0 then last[c.channel := c.number] else last
  }

  /** Transmitting keeps the order of the numbers and the window discipline of every channel. */
  lemma {:induction false} SentOk(q: Queues, last: seq<nat>, fromReliable: bool, now: nat, timeout: nat)
    requires Ok(q, last) && (if fromReliable then q.reliable != [] else q.outgoing != [] && q.outgoing[0].acknowledge)
    requires fromReliable && q.reliable[0].attempts == 0 ==> Permitted(q, q.reliable[0])
    ensures var c := if fromReliable then q.reliable[0] else q.outgoing[0];
            Ok(Sent(q, fromReliable, now, timeout), Advanced(last, c))
    ensures Waiting(Sent(q, fromReliable, now, timeout)) == Waiting(q)
    ensures fromReliable && q.reliable[0].attempts == 0 ==>
              q.reliable[0].channel < |last| && q.reliable[0].number == last[q.reliable[0].channel] + 1
  {
    hide Keys, Bytes, AttemptedFirst, ChannelOk, WindowsAgree, Shaped, Waiting, Distinct, Permitted, Unsent;
    SentWaiting(q, fromReliable, now, timeout);
    SentShaped(q, fromReliable, now, timeout);
    SentChannels(q, last, fromReliable, now, timeout);
    if fromReliable { TailKeepsOrder(q.reliable); } else { TailKeepsOrder(q.outgoing); }
    if fromReliable && q.reliable[0].attempts == 0 { HeadIsNext(q, last); }
  }

  predicate Permitted(q: Queues, c: Outgoing) {
    c.channel < |q.inFlight| ==> MaySend(q.inFlight[c.channel], c.number)
  }

  lemma {:induction false} HeadIsNext(q: Queues, last: seq<nat>)
    requires Ok(q, last) && q.reliable != [] && q.reliable[0].attempts == 0
    ensures var c := q.reliable[0];
            c.channel < |last| && c.number == last[c.channel] + 1
            && Unsent(q.reliable, c.channel) == [c.number] + Unsent(q.reliable[1..], c.channel)
  {
    hide Keys, Bytes, AttemptedFirst, WindowsAgree, Distinct, Attempted;
    var c := q.reliable[0];
    assert Placed(c, q);
    assert ChannelOk(q, last[c.channel], c.channel);
    assert Unsent(q.reliable, c.channel)[0] == c.number;
  }

  lemma {:induction false} TailKeepsOrder(s: seq<Outgoing>)
    requires s != [] && AttemptedFirst(s)
    ensures AttemptedFirst(s[1..])
  {
  }

  lemma {:induction false} SentWaiting(q: Queues, fromReliable: bool, now: nat, timeout: nat)
    requires if fromReliable then q.reliable != [] else q.outgoing != []
    requires Distinct(q) && q.transit == Bytes(q.sent)
    ensures var r := Sent(q, fromReliable, now, timeout);
            Waiting(r) == Waiting(q) && Distinct(r) && r.transit == Bytes(r.sent)
  {
    hide Keys, Bytes, Unsent;
    var c := if fromReliable then q.reliable[0] else q.outgoing[0];
    var d := Transmitted(c, now, timeout);
    KeysJoin(q.sent, [d]);
    OneKey(d);
    assert KeyOf(d) == KeyOf(c);
    if fromReliable { Tail(q.reliable); } else { Tail(q.outgoing); }
  }

  lemma {:induction false} SentShaped(q: Queues, fromReliable: bool, now: nat, timeout: nat)
    requires Shaped(q) && (if fromReliable then q.reliable != [] else q.outgoing != [] && q.outgoing[0].acknowledge)
    ensures Shaped(Sent(q, fromReliable, now, timeout))
  {
    var c := if fromReliable then q.reliable[0] else q.outgoing[0];
    var r := Sent(q, fromReliable, now, timeout);
    assert |r.inFlight| == |q.inFlight| && Placed(c, q);
  }

  lemma {:induction false} SentChannels(q: Queues, last: seq<nat>, fromReliable: bool, now: nat, timeout: nat)
    requires Ok(q, last) && (if fromReliable then q.reliable != [] else q.outgoing != [] && q.outgoing[0].acknowledge)
    requires fromReliable && q.reliable[0].attempts == 0 ==> Permitted(q, q.reliable[0])
    ensures var c := if fromReliable then q.reliable[0] else q.outgoing[0];
            var r, after := Sent(q, fromReliable, now, timeout), Advanced(last, c);
            && |after| == |r.inFlight| && WindowsAgree(r)
            && forall ch :: 0 <= ch < |after| ==> ChannelOk(r, after[ch], ch)
  {
    hide Keys, Bytes, AttemptedFirst, ChannelOk, Permitted, Unsent, Attempted, MaySend;
    var c := if fromReliable then q.reliable[0] else q.outgoing[0];
    forall ch: nat | ch < |last|
      ensures var r := Sent(q, fromReliable, now, timeout);
              && ChannelOk(r, Advanced(last, c)[ch], ch)
              && r.inFlight[ch] == Attempted(r.sent, ch) + Attempted(r.reliable, ch)
    {
      if fromReliable {
        ReliableChannel(q, last, now, timeout, ch);
      } else {
        assert Placed(c, q);
        AttemptedJoins(q.sent, Transmitted(c, now, timeout), ch);
        assert ChannelOk(Sent(q, fromReliable, now, timeout), last[ch], ch) by { SameChannelOk(q, Sent(q, false, now, timeout), last[ch], ch); }
      }
    }
  }

  lemma {:induction false} SameChannelOk(q: Queues, r: Queues, last: nat, ch: nat)
    requires ch < |q.inFlight| && ch < |r.inFlight| && ch < |q.issued| && ChannelOk(q, last, ch) && r.issued == q.issued
    requires r.inFlight[ch] == q.inFlight[ch] && Unsent(r.reliable, ch) == Unsent(q.reliable, ch)
    ensures ChannelOk(r, last, ch)
  {
  }

  lemma {:induction false} AttemptedJoins(s: seq<Outgoing>, c: Outgoing, ch: nat)
    ensures Attempted(s + [c], ch) ==
            Attempted(s, ch) + if c.acknowledge && c.attempts > 0 && c.channel == ch then {c.number} else {}
  {
    var t := s + [c];
    assert forall x :: x in t <==> x in s || x == c;
  }

  lemma {:induction false} AttemptedTail(s: seq<Outgoing>, ch: nat)
    requires s != [] && s[0].acknowledge && Keys(s)[Key(s[0])] <= 1
    ensures Attempted(s[1..], ch) == Attempted(s, ch) - if s[0].channel == ch && s[0].attempts > 0 then {s[0].number} else {}
    ensures s[0].channel == ch && s[0].attempts > 0 ==> s[0].number in Attempted(s, ch)
  {
    forall c | c in s[1..] && c.acknowledge ensures Key(c) != Key(s[0]) {
      KeyOfMember(s[1..], c);
    }
    assert forall c :: c in s <==> c == s[0] || c in s[1..];
  }

  lemma {:induction false} ReliableChannel(q: Queues, last: seq<nat>, now: nat, timeout: nat, ch: nat)
    requires Ok(q, last) && q.reliable != [] && ch < |last|
    requires q.reliable[0].attempts == 0 ==> Permitted(q, q.reliable[0])
    ensures var c, r := q.reliable[0], Sent(q, true, now, timeout);
            && ch < |r.inFlight| && ChannelOk(r, Advanced(last, c)[ch], ch)
            && r.inFlight[ch] == Attempted(r.sent, ch) + Attempted(r.reliable, ch)
  {
    hide Keys, Bytes, AttemptedFirst, Attempted, MaySend, Unsent, Consecutive, Distinct;
    var c, r := q.reliable[0], Sent(q, true, now, timeout);
    assert Placed(c, q);
    KeyOnceAtHead(q);
    AttemptedTail(q.reliable, ch);
    AttemptedJoins(q.sent, Transmitted(c, now, timeout), ch);
    assert q.inFlight[ch] == Attempted(q.sent, ch) + Attempted(q.reliable, ch);
    assert ChannelOk(q, last[ch], ch);
    Tail(q.reliable);
    if c.attempts == 0 && c.channel == ch {
      HeadIsNext(q, last);
      FirstChannelOk(q, r, last[ch], ch);
    } else {
      assert Unsent(q.reliable, ch) == Unsent(r.reliable, ch);
      SameChannelOk(q, r, last[ch], ch);
    }
  }

  lemma {:induction false} FirstChannelOk(q: Queues, r: Queues, last: nat, ch: nat)
    requires ch < |q.inFlight| && ch < |r.inFlight| && ch < |q.issued| && ChannelOk(q, last, ch) && r.issued == q.issued
    requires Unsent(q.reliable, ch) == [last + 1] + Unsent(r.reliable, ch)
    requires r.inFlight[ch] == q.inFlight[ch] + {last + 1} && MaySend(q.inFlight[ch], last + 1)
    ensures ChannelOk(r, last + 1, ch)
  {
    hide MaySend, Unsent;
    EntryIsNarrow(q.inFlight[ch], last);
    assert Unsent(r.reliable, ch) == Unsent(q.reliable, ch)[1..];
    ConsecutiveTail(Unsent(q.reliable, ch), last);
  }

  lemma {:induction false} KeyOnceAtHead(q: Queues)
    requires Distinct(q) && q.reliable != []
    ensures Keys(q.reliable)[Key(q.reliable[0])] <= 1
  {
    assert Waiting(q)[Key(q.reliable[0])] <= 1;
  }

  lemma {:induction false} ConsecutiveTail(numbers: seq<nat>, last: nat)
    requires Consecutive(numbers, last) && numbers != []
    ensures Consecutive(numbers[1..], last + 1)
  {
  }

  // Timeouts.

  function Inserted(s: seq<Outgoing>, p: nat, c: Outgoing): (t: seq<Outgoing>)
    requires p <= |s|
    ensures |t| == |s| + 1
  {
    s[..p] + [c] + s[p..]
  }

  /** A sent command has timed out: its timeout doubles, and it goes back to place p of its list. */
  function Returned(q: Queues, k: nat, p: nat): Queues
    requires k < |q.sent| && Bytes(q.sent) == q.transit
    requires if q.sent[k].packet then p <= |q.reliable| else p <= |q.outgoing|
  {
    WithoutOne(q.sent, k);
    var c := q.sent[k].(timeout := q.sent[k].timeout * 2);
    var r := q.(sent := Without(q.sent, k), transit := if c.packet then q.transit - c.length else q.transit);
    if c.packet then r.(reliable := Inserted(q.reliable, p, c)) else r.(outgoing := Inserted(q.outgoing, p, c))
  }

  /** A timeout moves a command between lists and changes neither what waits nor what is in flight. */
  lemma {:induction false} ReturnedOk(q: Queues, last: seq<nat>, k: nat, p: nat)
    requires Ok(q, last) && k < |q.sent|
    requires var s := if q.sent[k].packet then q.reliable else q.outgoing; p <= |s| && AllAttempted(s[..p])
    ensures Ok(Returned(q, k, p), last) && Waiting(Returned(q, k, p)) == Waiting(q)
  {
    hide Keys, Bytes, AttemptedFirst, ChannelOk, WindowsAgree, Waiting, Distinct, Unsent, AllAttempted, Inserted, Without;
    var c := q.sent[k].(timeout := q.sent[k].timeout * 2);
    ReturnedWaiting(q, last, k, p);
    ReturnedShaped(q, k, p);
    ReturnedChannels(q, last, k, p);
    if c.packet { InsertKeepsOrder(q.reliable, p, c); } else { InsertKeepsOrder(q.outgoing, p, c); }
  }

  predicate AllAttempted(s: seq<Outgoing>) { forall c :: c in s ==> c.acknowledge && c.attempts > 0 }

  lemma {:induction false} InsertKeepsOrder(s: seq<Outgoing>, p: nat, c: Outgoing)
    requires p <= |s| && AttemptedFirst(s) && AllAttempted(s[..p]) && c.acknowledge && c.attempts > 0
    ensures AttemptedFirst(Inserted(s, p, c)) && AllAttempted(Inserted(s, p, c)[..p + 1])
  {
    var t := Inserted(s, p, c);
    assert forall a :: 0 <= a < |t| && a != p ==> t[a] == s[if a < p then a else a - 1];
    assert forall a :: 0 <= a < p ==> s[a] in s[..p];
    assert t[..p + 1] == s[..p] + [c];
  }

  lemma {:induction false} InsertedOne(s: seq<Outgoing>, p: nat, c: Outgoing)
    requires p <= |s|
    ensures Keys(Inserted(s, p, c)) == Keys(s) + KeyOf(c)
    ensures c.attempts > 0 ==> forall ch :: Unsent(Inserted(s, p, c), ch) == Unsent(s, ch)
    ensures forall x :: x in Inserted(s, p, c) <==> x == c || x in s
  {
    hide Keys, Bytes, Unsent, KeyOf;
    assert s == s[..p] + s[p..];
    KeysJoin(s[..p], s[p..]);
    KeysJoin(s[..p] + [c], s[p..]);
    KeysJoin(s[..p], [c]);
    OneKey(c);
  }

  lemma {:induction false} ReturnedWaiting(q: Queues, last: seq<nat>, k: nat, p: nat)
    requires Ok(q, last) && k < |q.sent| && (if q.sent[k].packet then p <= |q.reliable| else p <= |q.outgoing|)
    ensures var r := Returned(q, k, p); Waiting(r) == Waiting(q) && Distinct(r) && r.transit == Bytes(r.sent)
  {
    hide Keys, Bytes, Unsent, Without, Inserted, ChannelOk, WindowsAgree, AttemptedFirst, Attempted;
    var c := q.sent[k].(timeout := q.sent[k].timeout * 2);
    WithoutOne(q.sent, k);
    assert KeyOf(c) == KeyOf(q.sent[k]) && Placed(q.sent[k], q);
    if c.packet { InsertedOne(q.reliable, p, c); } else { InsertedOne(q.outgoing, p, c); }
  }

  lemma {:induction false} ReturnedShaped(q: Queues, k: nat, p: nat)
    requires Shaped(q) && k < |q.sent| && Bytes(q.sent) == q.transit
    requires if q.sent[k].packet then p <= |q.reliable| else p <= |q.outgoing|
    ensures Shaped(Returned(q, k, p))
  {
    hide Keys, Bytes, Unsent, Without, Inserted;
    var c := q.sent[k].(timeout := q.sent[k].timeout * 2);
    WithoutOne(q.sent, k);
    if c.packet { InsertedOne(q.reliable, p, c); } else { InsertedOne(q.outgoing, p, c); }
  }

  lemma {:induction false} AttemptedInserted(s: seq<Outgoing>, p: nat, c: Outgoing, ch: nat)
    requires p <= |s|
    ensures Attempted(Inserted(s, p, c), ch) ==
            Attempted(s, ch) + if c.acknowledge && c.attempts > 0 && c.channel == ch then {c.number} else {}
  {
    hide Keys, Bytes, Unsent, Inserted;
    InsertedOne(s, p, c);
  }

  lemma {:induction false} ReturnedChannels(q: Queues, last: seq<nat>, k: nat, p: nat)
    requires Ok(q, last) && k < |q.sent| && (if q.sent[k].packet then p <= |q.reliable| else p <= |q.outgoing|)
    ensures var r := Returned(q, k, p); WindowsAgree(r) && forall ch :: 0 <= ch < |last| ==> ChannelOk(r, last[ch], ch)
  {
    hide Keys, Bytes, AttemptedFirst, ChannelOk, Unsent, Attempted, Without, Inserted, Distinct;
    var r, c := Returned(q, k, p), q.sent[k].(timeout := q.sent[k].timeout * 2);
    forall ch: nat | ch < |last|
      ensures ChannelOk(r, last[ch], ch) && r.inFlight[ch] == Attempted(r.sent, ch) + Attempted(r.reliable, ch)
    {
      KeyOnce(q, InSent(k));
      AttemptedWithout(q.sent, k, ch);
      if c.packet {
        AttemptedInserted(q.reliable, p, c, ch);
        InsertedOne(q.reliable, p, c);
      } else {
        assert Placed(q.sent[k], q);
      }
      SameChannelOk(q, r, last[ch], ch);
    }
  }

  // Unreliable commands.

  /** Unreliable commands at the head go without a trace. */
  lemma {:induction false} PoppedOk(q: Queues, last: seq<nat>, n: nat)
    requires Ok(q, last) && n <= |q.outgoing| && forall k :: 0 <= k < n ==> !q.outgoing[k].acknowledge
    ensures Ok(q.(outgoing := q.outgoing[n..]), last)
    ensures Waiting(q.(outgoing := q.outgoing[n..])) == Waiting(q)
    decreases n
  {
    hide Bytes, Unsent, Attempted, ChannelOk, Distinct, Keys, AttemptedFirst, WindowsAgree;
    if n > 0 {
      var r := q.(outgoing := q.outgoing[1..]);
      Tail(q.outgoing);
      TailKeepsOrder(q.outgoing);
      assert Waiting(r) == Waiting(q);
      assert Shaped(r) && Distinct(r) && WindowsAgree(r) && forall ch :: 0 <= ch < |last| ==> ChannelOk(r, last[ch], ch) by {
        PoppedChannels(q, r, last);
      }
      PoppedOk(r, last, n - 1);
      assert q.outgoing[n..] == r.outgoing[n - 1..];
    } else {
      assert q.outgoing[0..] == q.outgoing;
    }
  }

  lemma {:induction false} PoppedChannels(q: Queues, r: Queues, last: seq<nat>)
    requires Ok(q, last) && q.outgoing != [] && r == q.(outgoing := q.outgoing[1..]) && Waiting(r) == Waiting(q)
    ensures Shaped(r) && Distinct(r) && WindowsAgree(r) && forall ch :: 0 <= ch < |last| ==> ChannelOk(r, last[ch], ch)
  {
    hide Keys, Bytes, Waiting, AttemptedFirst, Attempted, Unsent;
    forall ch: nat | ch < |last| ensures ChannelOk(r, last[ch], ch) {
      assert ChannelOk(q, last[ch], ch);
      SameChannelOk(q, r, last[ch], ch);
    }
  }

  // Queueing.

  /** A new command joins the list it belongs to. */
  function Queued(q: Queues, c: Outgoing): Queues {
    if c.acknowledge && c.packet then
      q.(reliable := q.reliable + [c],
         issued := if c.channel < |q.issued| then q.issued[c.channel := c.number] else q.issued)
    else q.(outgoing := q.outgoing + [c])
  }

  /** What a new command must be: untransmitted, with the next number of its channel. */
  predicate New(q: Queues, c: Outgoing) {
    && c.attempts == 0 && |q.issued| == |q.inFlight|
    && (c.acknowledge ==> Placed(c, q) && Waiting(q)[Key(c)] == 0)
    && (c.acknowledge && c.packet ==> c.number == q.issued[c.channel] + 1)
  }

  lemma {:induction false} QueuedOk(q: Queues, last: seq<nat>, c: Outgoing)
    requires Ok(q, last) && New(q, c)
    ensures Ok(Queued(q, c), last) && Waiting(Queued(q, c)) == Waiting(q) + KeyOf(c)
  {
    hide Keys, Bytes, ChannelOk, Unsent, Attempted, WindowsAgree, AttemptedFirst, Waiting, Shaped;
    QueuedWaiting(q, c);
    QueuedShaped(q, c);
    AppendKeepsOrder(q.reliable, c);
    AppendKeepsOrder(q.outgoing, c);
    forall ch: nat | ch < |last| ensures ChannelOk(Queued(q, c), last[ch], ch) {
      QueuedChannelOk(q, last, c, ch);
    }
    assert WindowsAgree(Queued(q, c)) by { QueuedWindows(q, c); }
  }

  lemma {:induction false} AppendKeepsOrder(s: seq<Outgoing>, c: Outgoing)
    requires AttemptedFirst(s) && c.attempts == 0
    ensures AttemptedFirst(s + [c])
  {
  }

  lemma {:induction false} QueuedWaiting(q: Queues, c: Outgoing)
    ensures Waiting(Queued(q, c)) == Waiting(q) + KeyOf(c)
  {
    hide Keys, Bytes, Unsent;
    OneKey(c);
    KeysJoin(q.reliable, [c]);
    KeysJoin(q.outgoing, [c]);
  }

  lemma {:induction false} QueuedShaped(q: Queues, c: Outgoing)
    requires Shaped(q) && (c.acknowledge ==> Placed(c, q))
    ensures Shaped(Queued(q, c))
  {
  }

  lemma {:induction false} QueuedWindows(q: Queues, c: Outgoing)
    requires WindowsAgree(q) && c.attempts == 0
    ensures WindowsAgree(Queued(q, c))
  {
    hide Attempted;
    forall ch: nat | ch < |q.inFlight|
      ensures Attempted(Queued(q, c).reliable, ch) == Attempted(q.reliable, ch) && Queued(q, c).sent == q.sent
    {
      AttemptedJoins(q.reliable, c, ch);
    }
  }

  lemma {:induction false} QueuedChannelOk(q: Queues, last: seq<nat>, c: Outgoing, ch: nat)
    requires Ok(q, last) && c.attempts == 0 && ch < |last|
    requires c.acknowledge ==> Placed(c, q)
    requires c.acknowledge && c.packet ==> c.number == q.issued[c.channel] + 1
    ensures ChannelOk(Queued(q, c), last[ch], ch)
  {
    hide Keys, Bytes, Unsent, Attempted, Distinct, WindowsAgree, AttemptedFirst;
    assert ChannelOk(q, last[ch], ch);
    OneKey(c);
    KeysJoin(q.reliable, [c]);
  }
}
