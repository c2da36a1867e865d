/** The account of what leaves a peer's queues while a datagram is filled. */
module Ledgers {
  import opened SendQueues
  import opened Packing
  import opened Timeouts
  import opened Moves

  /** The commands of a list that ask for no acknowledgement. */
  function LooseOf(s: seq<Outgoing>): multiset<Outgoing> {
    if s == [] then multiset{} else LooseIn(s[0]) + LooseOf(s[1..])
  }

  function LooseIn(c: Outgoing): multiset<Outgoing> { if c.acknowledge then multiset{} else multiset{c} }

  lemma {:induction false} LooseJoin(s: seq<Outgoing>, t: seq<Outgoing>)
    ensures LooseOf(s + t) == LooseOf(s) + LooseOf(t)
  {
    hide LooseIn;
    if s == [] {
      assert s + t == t;
    } else {
      LooseJoin(s[1..], t);
      assert (s + t)[1..] == s[1..] + t;
    }
  }

  lemma {:induction false} LooseOne(c: Outgoing)
    ensures LooseOf([c]) == LooseIn(c)
  {
    assert [c][1..] == [];
  }

  lemma {:induction false} NothingLoose(s: seq<Outgoing>)
    requires forall c :: c in s ==> c.acknowledge
    ensures LooseOf(s) == multiset{}
  {
    if s != [] { NothingLoose(s[1..]); }
  }

  lemma {:induction false} AllLoose(s: seq<Outgoing>)
    requires forall c :: c in s ==> !c.acknowledge
    ensures LooseOf(s) == multiset(s) && Keys(s) == multiset{}
  {
    if s != [] {
      AllLoose(s[1..]);
      assert s == [s[0]] + s[1..];
    }
  }

  /** The keys of the commands of a list that have not expired. */
  function Alive(s: seq<Outgoing>, now: nat): multiset<(nat, nat)> { Keys(Kept(s, now)) }

  lemma {:induction false} KeptJoin(s: seq<Outgoing>, t: seq<Outgoing>, now: nat)
    ensures Kept(s + t, now) == Kept(s, now) + Kept(t, now)
  {
    hide Expired;
    if t == [] {
      assert s + t == s;
    } else {
      KeptJoin(s, t[..|t| - 1], now);
      assert (s + t)[..|s + t| - 1] == s + t[..|t| - 1];
    }
  }

  lemma {:induction false} KeptAgain(s: seq<Outgoing>, now: nat)
    ensures Kept(Kept(s, now), now) == Kept(s, now)
  {
    hide Expired;
    if s != [] {
      var n := |s| - 1;
      KeptAgain(s[..n], now);
      KeptJoin(Kept(s[..n], now), if Expired(s[n], now) then [] else [s[n]], now);
      assert [s[n]][..0] == [];
    }
  }

  /** A command that was just sent is alive. */
  lemma {:induction false} OneMoreAlive(s: seq<Outgoing>, c: Outgoing, now: nat)
    requires c.sentTime == now && c.timeout > 0
    ensures ExpiredCount(s + [c], now) == ExpiredCount(s, now) && Alive(s + [c], now) == Alive(s, now) + KeyOf(c)
  {
    hide Keys, KeyOf;
    JustSent(s, c, now);
    KeptJoin(s, [c], now);
    assert [c][..0] == [] && Kept([c], now) == [c];
    KeysJoin(Kept(s, now), [c]);
    OneKey(c);
  }

  /** Taking expired commands away leaves those alive. */
  lemma {:induction false} ExpiryKeepsAlive(s: seq<Outgoing>, k: nat, now: nat)
    requires k <= |s|
    ensures Alive(Kept(s[..k], now) + s[k..], now) == Alive(s, now)
  {
    hide Expired, Keys;
    assert s == s[..k] + s[k..];
    KeptJoin(s[..k], s[k..], now);
    KeptJoin(Kept(s[..k], now), s[k..], now);
    KeptAgain(s[..k], now);
  }

  lemma {:induction false} NobodyAlive(now: nat)
    ensures Alive([], now) == multiset{}
  {
  }

  /** Whether any command of a list asks for an acknowledgement. */
  ghost predicate AnyReliable(s: seq<Outgoing>) { Keys(s) != multiset{} }

  lemma {:induction false} NoneReliable()
    ensures !AnyReliable([])
  {
  }

  lemma {:induction false} AnyReliableExactly(s: seq<Outgoing>)
    ensures AnyReliable(s) <==> exists c :: c in s && c.acknowledge
  {
    if s != [] {
      AnyReliableExactly(s[1..]);
      assert s == [s[0]] + s[1..];
    }
  }

  /** Every command has a key or asks for no acknowledgement. */
  lemma {:induction false} KeyedOrLoose(s: seq<Outgoing>)
    ensures |Keys(s)| + |LooseOf(s)| == |s|
  {
    if s != [] { KeyedOrLoose(s[1..]); }
  }

  /** The lists, the datagram and what waits for acknowledgement at some moment; `work` counts what there is to send,
      `alive` holds the sent commands that have not expired. */
  datatype Snapshot = Snapshot(core: Core, outgoing: seq<Outgoing>, reliable: seq<Outgoing>, commands: seq<Entry>,
                               waiting: multiset<(nat, nat)>, work: nat, alive: multiset<(nat, nat)>)

  /** From s to t the first a and b commands left the two lists: those of e into the datagram, and if they ask for an
      acknowledgement also to the sent list, those of d are dropped. */
  ghost predicate Ledger(s: Snapshot, t: Snapshot, a: nat, b: nat, e: seq<Outgoing>, d: seq<Outgoing>) {
    && a <= |s.outgoing| && t.outgoing == s.outgoing[a..]
    && b <= |s.reliable| && t.reliable == s.reliable[b..]
    && t.commands == s.commands + CommandsOf(e) && |e| + |d| == a + b
    && multiset(e) + multiset(d) == multiset(s.outgoing[..a]) + multiset(s.reliable[..b])
    && LooseOf(t.outgoing) + LooseOf(e) + LooseOf(d) == LooseOf(s.outgoing)
    && (forall c :: c in d ==> c.packet && !c.acknowledge)
    && t.alive == s.alive + Keys(e) && t.waiting == s.waiting && t.work + a + b == s.work && Leads(s.core, t.core)
  }

  lemma {:induction false} LedgerStarts(s: Snapshot)
    ensures Ledger(s, s, 0, 0, [], [])
  {
    NoCommands();
    LeadsItself(s.core);
    assert s.outgoing[..0] == [] && s.reliable[..0] == [] && s.commands + [] == s.commands;
  }

  lemma {:induction false} LedgerPacks(s: Snapshot, t: Snapshot, a: nat, b: nat, e: seq<Outgoing>, d: seq<Outgoing>)
    requires Ledger(s, t, a, b, e, d)
    ensures s.commands <= t.commands && t.commands == s.commands + CommandsOf(e)
  {
    hide CommandsOf, LooseOf, Keys;
  }

  /** The head of a list goes into the datagram. */
  ghost predicate SentHead(t: Snapshot, u: Snapshot, fromReliable: bool) {
    && (if fromReliable then t.reliable != [] else t.outgoing != [])
    && var c := if fromReliable then t.reliable[0] else t.outgoing[0];
       && u.outgoing == (if fromReliable then t.outgoing else t.outgoing[1..])
       && u.reliable == (if fromReliable then t.reliable[1..] else t.reliable)
       && u.commands == t.commands + [Command(c)] && u.alive == t.alive + KeyOf(c) && u.waiting == t.waiting
       && u.work + 1 == t.work && Leads(t.core, u.core)
  }

  /** The first n commands of outgoingCommands are dropped. */
  ghost predicate DroppedHeads(t: Snapshot, u: Snapshot, n: nat) {
    && n <= |t.outgoing| && u == t.(outgoing := t.outgoing[n..], work := u.work, core := u.core) && u.work + n == t.work
    && Leads(t.core, u.core)
    && forall k :: 0 <= k < n ==> t.outgoing[k].packet && !t.outgoing[k].acknowledge
  }

  lemma {:induction false} SumShifts(a: multiset<Outgoing>, b: multiset<Outgoing>, c: multiset<Outgoing>, d: multiset<Outgoing>)
    ensures a + (b + c) + d == (c + a) + b + d && a + b + (d + c) == (c + a) + b + d
  {
  }

  lemma {:induction false} SumGrows(e: multiset<Outgoing>, d: multiset<Outgoing>, x: multiset<Outgoing>, y: multiset<Outgoing>,
                                    c: multiset<Outgoing>)
    requires e + d == x + y
    ensures (e + c) + d == (x + c) + y && (e + c) + d == x + (y + c) && e + (d + c) == (x + c) + y
  {
    assert (e + c) + d == (e + d) + c && e + (d + c) == (e + d) + c;
    assert (x + c) + y == (x + y) + c && x + (y + c) == (x + y) + c;
  }

  /** Emptied heads, and what goes with them. */
  lemma {:induction false} Heads(s: seq<Outgoing>, t: seq<Outgoing>, a: nat, n: nat)
    requires a <= |s| && t == s[a..] && n <= |t|
    ensures a + n <= |s| && t[n..] == s[a + n..] && s[..a + n] == s[..a] + t[..n] && LooseOf(t) == LooseOf(t[..n]) + LooseOf(t[n..])
    ensures multiset(s[..a + n]) == multiset(s[..a]) + multiset(t[..n])
  {
    hide LooseOf;
    assert t == t[..n] + t[n..];
    LooseJoin(t[..n], t[n..]);
    assert s[..a + n] == s[..a] + t[..n];
  }

  lemma {:induction false} OneSent(e: seq<Outgoing>, c: Outgoing)
    ensures CommandsOf(e + [c]) == CommandsOf(e) + [Command(c)] && Keys(e + [c]) == Keys(e) + KeyOf(c)
    ensures LooseOf(e + [c]) == LooseOf(e) + LooseIn(c) && multiset(e + [c]) == multiset(e) + multiset{c}
    ensures AnyReliable(e + [c]) == (AnyReliable(e) || c.acknowledge)
    ensures LooseOf([c]) == LooseIn(c) && multiset([c]) == multiset{c} && |LooseIn(c)| == if c.acknowledge then 0 else 1
  {
    hide Keys, LooseOf, CommandsOf;
    OneMoreCommand(e, c);
    KeysJoin(e, [c]);
    OneKey(c);
    LooseJoin(e, [c]);
    LooseOne(c);
  }

  lemma {:induction false} LedgerSendsReliable(s: Snapshot, t: Snapshot, u: Snapshot, a: nat, b: nat, e: seq<Outgoing>, d: seq<Outgoing>)
    requires Ledger(s, t, a, b, e, d) && SentHead(t, u, true) && t.reliable[0].acknowledge
    ensures Ledger(s, u, a, b + 1, e + [t.reliable[0]], d)
  {
    hide Keys, LooseOf, CommandsOf, Leads;
    var c := t.reliable[0];
    OneSent(e, c);
    Heads(s.reliable, t.reliable, b, 1);
    LeadsOn(s.core, t.core, u.core);
    assert t.reliable[..1] == [c];
    SumGrows(multiset(e), multiset(d), multiset(s.outgoing[..a]), multiset(s.reliable[..b]), multiset{c});
    assert LooseOf(e) + multiset{} == LooseOf(e);
    assert t.commands + [Command(c)] == s.commands + (CommandsOf(e) + [Command(c)]);
  }

  lemma {:induction false} LedgerSendsOther(s: Snapshot, t: Snapshot, u: Snapshot, a: nat, b: nat, e: seq<Outgoing>, d: seq<Outgoing>)
    requires Ledger(s, t, a, b, e, d) && SentHead(t, u, false)
    ensures Ledger(s, u, a + 1, b, e + [t.outgoing[0]], d)
  {
    hide Keys, LooseOf, CommandsOf, LooseIn, Leads;
    var c := t.outgoing[0];
    OneSent(e, c);
    Heads(s.outgoing, t.outgoing, a, 1);
    LeadsOn(s.core, t.core, u.core);
    assert t.outgoing[..1] == [c];
    SumGrows(multiset(e), multiset(d), multiset(s.outgoing[..a]), multiset(s.reliable[..b]), multiset{c});
    SumShifts(LooseOf(u.outgoing), LooseOf(e), LooseIn(c), LooseOf(d));
    assert t.commands + [Command(c)] == s.commands + (CommandsOf(e) + [Command(c)]);
  }

  lemma {:induction false} LedgerDrops(s: Snapshot, t: Snapshot, u: Snapshot, a: nat, b: nat, e: seq<Outgoing>, d: seq<Outgoing>, n: nat)
    requires Ledger(s, t, a, b, e, d) && DroppedHeads(t, u, n)
    ensures Ledger(s, u, a + n, b, e, d + t.outgoing[..n])
  {
    hide Keys, LooseOf, CommandsOf, LooseIn, Leads;
    var gone := t.outgoing[..n];
    Heads(s.outgoing, t.outgoing, a, n);
    LeadsOn(s.core, t.core, u.core);
    LooseJoin(d, gone);
    assert multiset(d + gone) == multiset(d) + multiset(gone);
    SumGrows(multiset(e), multiset(d), multiset(s.outgoing[..a]), multiset(s.reliable[..b]), multiset(gone));
    SumShifts(LooseOf(u.outgoing), LooseOf(e), LooseOf(gone), LooseOf(d));
  }

  // A whole pass.

  /** What a pass starts from: the acknowledgements and commands to be sent, what waits for acknowledgement, how much
      there is to send, and the sent commands that have not expired. */
  datatype PassStart = PassStart(core: Core, acks: seq<Acknowledgement>, outgoing: seq<Outgoing>, waiting: multiset<(nat, nat)>,
                                 work: nat, alive: multiset<(nat, nat)>)

  /** During a pass: the datagram holds the oldest n acknowledgements and the commands of e, those of d were dropped,
      and a ping was queued at most once, while no sent command was alive. */
  ghost predicate PassLedger(b: PassStart, t: Snapshot, acks: seq<Acknowledgement>, n: nat, e: seq<Outgoing>, d: seq<Outgoing>,
                             pinged: multiset<(nat, nat)>) {
    && n <= |b.acks| && acks == b.acks[n..] && t.commands == Acks(b.acks[..n]) + CommandsOf(e)
    && LooseOf(t.outgoing) + LooseOf(e) + LooseOf(d) == LooseOf(b.outgoing) && (forall c :: c in d ==> c.packet && !c.acknowledge)
    && t.alive == b.alive + Keys(e) && t.waiting == b.waiting + pinged && t.work + n + |e| + |d| == b.work + |pinged|
    && Leads(b.core, t.core) && |pinged| <= 1 && (|pinged| > 0 ==> b.alive == multiset{})
    && forall k :: k in pinged ==> k.0 == PEER_CHANNEL
  }

  lemma {:induction false} PassStarts(b: PassStart, t: Snapshot, acks: seq<Acknowledgement>, n: nat)
    requires n <= |b.acks| && acks == b.acks[n..] && t.commands == Acks(b.acks[..n]) && t.outgoing == b.outgoing && t.core == b.core
    requires t.waiting == b.waiting && t.work + n == b.work && t.alive == b.alive
    ensures PassLedger(b, t, acks, n, [], [], multiset{})
  {
    NoCommands();
    LeadsItself(b.core);
    NothingPacked();
    NothingLoose([]);
    assert Acks(b.acks[..n]) + [] == Acks(b.acks[..n]);
  }

  lemma {:induction false} PassExpires(b: PassStart, s: Snapshot, t: Snapshot, acks: seq<Acknowledgement>, n: nat, back: seq<Outgoing>)
    requires PassLedger(b, s, acks, n, [], [], multiset{}) && t.outgoing == back + s.outgoing
    requires forall c :: c in back ==> c.acknowledge
    requires t.commands == s.commands && t.waiting == s.waiting && t.work == s.work && t.alive == s.alive
    requires Leads(s.core, t.core)
    ensures PassLedger(b, t, acks, n, [], [], multiset{})
  {
    hide Leads;
    LeadsOn(b.core, s.core, t.core);
    NoCommands();
    NothingLoose(back);
    LooseJoin(back, s.outgoing);
  }

  lemma {:induction false} PassFills(b: PassStart, s: Snapshot, t: Snapshot, acks: seq<Acknowledgement>, n: nat, e: seq<Outgoing>,
                                     d: seq<Outgoing>, pinged: multiset<(nat, nat)>, x: nat, y: nat, e': seq<Outgoing>, d': seq<Outgoing>)
    requires PassLedger(b, s, acks, n, e, d, pinged) && Ledger(s, t, x, y, e', d')
    ensures PassLedger(b, t, acks, n, e + e', d + d', pinged)
  {
    hide LooseOf, Keys, CommandsOf, Acks, Leads;
    KeysJoin(e, e');
    LeadsOn(b.core, s.core, t.core);
    MoreCommands(Acks(b.acks[..n]), e, e');
    MoreLoose(t.outgoing, e, d, e', d');
  }

  lemma {:induction false} MoreCommands(first: seq<Entry>, e: seq<Outgoing>, f: seq<Outgoing>)
    ensures (first + CommandsOf(e)) + CommandsOf(f) == first + CommandsOf(e + f)
  {
    hide CommandsOf;
    CommandsJoin(e, f);
  }

  lemma {:induction false} MoreLoose(t: seq<Outgoing>, e: seq<Outgoing>, d: seq<Outgoing>, f: seq<Outgoing>, g: seq<Outgoing>)
    ensures LooseOf(t) + LooseOf(e + f) + LooseOf(d + g) == (LooseOf(t) + LooseOf(f) + LooseOf(g)) + LooseOf(e) + LooseOf(d)
  {
    hide LooseOf;
    LooseJoin(e, f);
    LooseJoin(d, g);
    SumsMeet(LooseOf(t), LooseOf(e), LooseOf(d), LooseOf(f), LooseOf(g));
  }

  lemma {:induction false} SumsMeet(t: multiset<Outgoing>, e: multiset<Outgoing>, d: multiset<Outgoing>, f: multiset<Outgoing>,
                                    g: multiset<Outgoing>)
    ensures t + (e + f) + (d + g) == (t + f + g) + e + d
  {
  }

  lemma {:induction false} CommandsJoin(s: seq<Outgoing>, t: seq<Outgoing>)
    ensures CommandsOf(s + t) == CommandsOf(s) + CommandsOf(t)
  {
  }

  lemma {:induction false} PassPings(b: PassStart, s: Snapshot, t: Snapshot, acks: seq<Acknowledgement>, n: nat, e: seq<Outgoing>,
                                     d: seq<Outgoing>, c: Outgoing)
    requires PassLedger(b, s, acks, n, e, d, multiset{}) && c.acknowledge && c.channel == PEER_CHANNEL && s.alive == multiset{}
    requires t.outgoing == s.outgoing + [c] && t.waiting == s.waiting + KeyOf(c) && t.work == s.work + 1
    requires t.commands == s.commands && t.alive == s.alive && Leads(s.core, t.core)
    ensures PassLedger(b, t, acks, n, e, d, KeyOf(c))
  {
    hide LooseOf, Keys, CommandsOf, Acks, Leads;
    LeadsOn(b.core, s.core, t.core);
    LooseJoin(s.outgoing, [c]);
    LooseOne(c);
    LooseFew(e);
  }

  lemma {:induction false} LooseFew(s: seq<Outgoing>)
    ensures |LooseOf(s)| <= |s|
  {
    if s != [] { LooseFew(s[1..]); }
  }

  /** What the passes still have to do: first a command has to be alive, which ends the pings; until then the
      acknowledgements and the unreliable commands count, and from then on everything there is to send. */
  function Phase(t: PassStart): nat { if t.alive == multiset{} then 1 else 0 }

  function Left(t: PassStart): nat { if t.alive == multiset{} then |t.acks| + |LooseOf(t.outgoing)| else t.work }

  function EndOf(t: Snapshot, acks: seq<Acknowledgement>): PassStart {
    PassStart(t.core, acks, t.outgoing, t.waiting, t.work, t.alive)
  }

  /** A pass that sends something leaves less to do. */
  lemma {:induction false} PassProgresses(b: PassStart, t: Snapshot, acks: seq<Acknowledgement>, n: nat, e: seq<Outgoing>,
                                          d: seq<Outgoing>, pinged: multiset<(nat, nat)>)
    requires PassLedger(b, t, acks, n, e, d, pinged)
    ensures var r := EndOf(t, acks); Phase(r) < Phase(b) || (Phase(r) == Phase(b) && Left(r) + n + |e| <= Left(b))
  {
    hide LooseOf, Keys, CommandsOf, Acks, Leads;
    KeyedOrLoose(e);
  }

  lemma {:induction false} PassCounts(b: PassStart, t: Snapshot, acks: seq<Acknowledgement>, n: nat, e: seq<Outgoing>,
                                      d: seq<Outgoing>, pinged: multiset<(nat, nat)>)
    requires PassLedger(b, t, acks, n, e, d, pinged)
    ensures |t.commands| == n + |e|
  {
    hide LooseOf, Keys;
  }

  // All passes.

  function AcksIn(entries: seq<Entry>): seq<Acknowledgement> {
    if entries == [] then [] else AcksIn(entries[..|entries| - 1]) + AckIn(entries[|entries| - 1])
  }

  function AckIn(e: Entry): seq<Acknowledgement> { if e.Ack? then [e.acknowledgement] else [] }

  function CommandsIn(entries: seq<Entry>): seq<Outgoing> {
    if entries == [] then [] else CommandsIn(entries[..|entries| - 1]) + CommandIn(entries[|entries| - 1])
  }

  function CommandIn(e: Entry): seq<Outgoing> { if e.Command? then [e.command] else [] }

  lemma {:induction false} AcksJoin(s: seq<Entry>, t: seq<Entry>)
    ensures AcksIn(s + t) == AcksIn(s) + AcksIn(t)
  {
    hide AckIn;
    if t == [] {
      assert s + t == s;
    } else {
      AcksJoin(s, t[..|t| - 1]);
      assert (s + t)[..|s + t| - 1] == s + t[..|t| - 1];
    }
  }

  lemma {:induction false} InJoin(s: seq<Entry>, t: seq<Entry>)
    ensures AcksIn(s + t) == AcksIn(s) + AcksIn(t) && CommandsIn(s + t) == CommandsIn(s) + CommandsIn(t)
  {
    hide CommandIn, AcksIn;
    AcksJoin(s, t);
    if t == [] {
      assert s + t == s;
    } else {
      InJoin(s, t[..|t| - 1]);
      assert (s + t)[..|s + t| - 1] == s + t[..|t| - 1];
    }
  }

  lemma {:induction false} InAcks(s: seq<Acknowledgement>)
    ensures AcksIn(Acks(s)) == s && CommandsIn(Acks(s)) == []
  {
    hide AckIn, CommandIn, Acks;
    if s != [] {
      var n := |s| - 1;
      InAcks(s[..n]);
      assert Acks(s)[..n] == Acks(s[..n]);
      EntryIn(s[n]);
      assert s[..n] + [s[n]] == s;
    }
  }

  lemma {:induction false} EntryIn(a: Acknowledgement)
    ensures AckIn(Ack(a)) == [a] && CommandIn(Ack(a)) == []
  {
  }

  lemma {:induction false} InCommands(s: seq<Outgoing>)
    ensures AcksIn(CommandsOf(s)) == [] && CommandsIn(CommandsOf(s)) == s
  {
    if s != [] {
      var n := |s| - 1;
      InCommands(s[..n]);
      assert CommandsOf(s)[..n] == CommandsOf(s[..n]) && s == s[..n] + [s[n]];
    }
  }

  /** What became of what a peer had to send at the start: what its datagrams took, what the throttle dropped, and the
      keys of the pings that were added. */
  datatype Account = Account(start: PassStart, entries: seq<Entry>, dropped: seq<Outgoing>, pings: multiset<(nat, nat)>)

  /** The account agrees with what there is now: the acknowledgements went out oldest first; every command that asks
      for no acknowledgement was sent, dropped or is still there, once; every other command still waits for its
      acknowledgement, and those sent are the ones newly alive. */
  ghost predicate Balanced(a: Account, t: PassStart) {
    && a.start.acks == AcksIn(a.entries) + t.acks
    && LooseOf(t.outgoing) + LooseOf(CommandsIn(a.entries)) + LooseOf(a.dropped) == LooseOf(a.start.outgoing)
    && (forall c :: c in a.dropped ==> c.packet && !c.acknowledge)
    && t.waiting == a.start.waiting + a.pings && t.alive == a.start.alive + Keys(CommandsIn(a.entries))
    && Leads(a.start.core, t.core) && forall k :: k in a.pings ==> k.0 == PEER_CHANNEL
  }

  lemma {:induction false} BalanceStarts(t: PassStart)
    ensures Balanced(Account(t, [], [], multiset{}), t)
  {
    LeadsItself(t.core);
    NothingLoose([]);
    assert AcksIn([]) + t.acks == t.acks;
  }

  lemma {:induction false} BalanceKept(a: Account, b: PassStart, t: Snapshot, acks: seq<Acknowledgement>, n: nat, e: seq<Outgoing>,
                                       d: seq<Outgoing>, pinged: multiset<(nat, nat)>)
    requires Balanced(a, b) && PassLedger(b, t, acks, n, e, d, pinged)
    ensures Balanced(Account(a.start, a.entries + t.commands, a.dropped + d, a.pings + pinged), EndOf(t, acks))
  {
    hide LooseOf, Keys, CommandsOf, Acks, AcksIn, CommandsIn, Leads;
    LeadsOn(a.start.core, b.core, t.core);
    InJoin(a.entries, t.commands);
    InDatagram(b.acks[..n], e);
    KeysJoin(CommandsIn(a.entries), e);
    MoreLoose(t.outgoing, CommandsIn(a.entries), a.dropped, e, d);
    assert AcksIn(a.entries) + b.acks == (AcksIn(a.entries) + b.acks[..n]) + b.acks[n..];
  }

  lemma {:induction false} InDatagram(acks: seq<Acknowledgement>, e: seq<Outgoing>)
    ensures AcksIn(Acks(acks) + CommandsOf(e)) == acks && CommandsIn(Acks(acks) + CommandsOf(e)) == e
  {
    hide CommandsOf, Acks, AcksIn, CommandsIn;
    InJoin(Acks(acks), CommandsOf(e));
    InAcks(acks);
    InCommands(e);
    assert [] + e == e && acks + [] == acks;
  }
}
