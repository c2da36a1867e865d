/** The passes of a host over its peers, until nothing more can be sent. */
module SendLoop {
  import opened Totals
  import opened Packing
  import opened Ledgers
  import opened SendQueues
  import opened Retries
  import opened Sending

  /** A datagram handed to the network. */
  datatype Shipment = Shipment(peer: nat, entries: seq<Entry>)

  /** What the datagrams carried to peer i. */
  function EntriesFor(datagrams: seq<Shipment>, i: nat): seq<Entry> {
    if datagrams == [] then []
    else
      var g := datagrams[|datagrams| - 1];
      EntriesFor(datagrams[..|datagrams| - 1], i) + if g.peer == i then g.entries else []
  }

  lemma {:induction false} OneMoreFor(datagrams: seq<Shipment>, g: Shipment, i: nat)
    ensures EntriesFor(datagrams + [g], i) == EntriesFor(datagrams, i) + if g.peer == i then g.entries else []
  {
    assert (datagrams + [g])[..|datagrams|] == datagrams;
  }

  /** A peer at some moment: whether it sends, whether its invariants hold, what it has to send, whether it asks for
      another pass, and whether it has drained. */
  datatype View = View(active: bool, steady: bool, flagged: bool, drained: bool, now: PassStart)

  /** The datagrams of the host and, for each peer, how it is now and what became of what it had to send. */
  datatype Books = Books(views: seq<View>, accounts: seq<Account>, datagrams: seq<Shipment>)

  /** Peers only ever stop sending. */
  ghost predicate Fewer(v: seq<View>, w: seq<View>) {
    |v| == |w| && forall i :: 0 <= i < |v| ==> v[i].active ==> w[i].active
  }

  ghost predicate Booked(v: View, a: Account, shipped: seq<Entry>) {
    v.active ==> v.steady && Balanced(a, v.now) && a.entries == shipped
  }

  /** Every active peer is in order, its account is balanced and agrees with the datagrams, and every datagram holds
      something and keeps the limits. */
  ghost predicate Correct(b: Books, starts: seq<PassStart>, mtus: seq<nat>) {
    && |b.views| == |b.accounts| == |starts| == |mtus|
    && (forall i :: 0 <= i < |starts| ==> Booked(b.views[i], b.accounts[i], EntriesFor(b.datagrams, i)))
    && (forall i :: 0 <= i < |starts| ==> b.accounts[i].start == starts[i])
    && forall g :: g in b.datagrams ==> g.peer < |mtus| && g.entries != [] && Within(g.entries, mtus[g.peer])
  }

  /** Before its first turn a peer is as it was; afterwards all it had to send reliably, and all that was overdue then, has
      been sent or waits. */
  ghost predicate Dealt(v: View, a: Account, now: nat, checkForTimeouts: bool, visited: bool) {
    v.active ==>
      if visited then
        Onward(a.start.core.q, v.now.core.q, a.entries, now, Checks(a.start.core.q.sent, now, checkForTimeouts))
      else v.now == a.start && a.entries == []
  }

  /** The first n peers have had their turns. */
  ghost predicate AllDealt(b: Books, now: nat, checkForTimeouts: bool, n: nat) {
    |b.views| == |b.accounts| && forall i :: 0 <= i < |b.views| ==> Dealt(b.views[i], b.accounts[i], now, checkForTimeouts, i < n)
  }

  /** What a turn does with what there is to send reliably. */
  ghost predicate Attends(v: View, w: View, datagram: seq<Entry>, now: nat, checkForTimeouts: bool) {
    w.active ==> Onward(v.now.core.q, w.now.core.q, datagram, now, Checks(v.now.core.q.sent, now, checkForTimeouts))
  }

  lemma {:induction false} TurnDeals(v: View, a: Account, w: View, r: Account, datagram: seq<Entry>, now: nat, checkForTimeouts: bool,
                                     visited: bool)
    requires Dealt(v, a, now, checkForTimeouts, visited) && v.active && Attends(v, w, datagram, now, checkForTimeouts)
    requires r.start == a.start && (w.active ==> r.entries == a.entries + datagram)
    ensures Dealt(w, r, now, checkForTimeouts, true)
  {
    hide Reached, Onward;
    if w.active {
      if visited {
        if Checks(v.now.core.q.sent, now, checkForTimeouts) {
          ChecksOnce(a.start.core.q, v.now.core.q, a.entries, now, checkForTimeouts);
        }
        OnwardChains(a.start.core.q, v.now.core.q, w.now.core.q, a.entries, datagram, r.entries, now,
                     Checks(a.start.core.q.sent, now, checkForTimeouts), Checks(v.now.core.q.sent, now, checkForTimeouts));
      } else {
        assert [] + datagram == datagram;
      }
    }
  }

  /** A peer whose first command is not due does not become due during the passes. */
  lemma {:induction false} ChecksOnce(q: Queues, r: Queues, entries: seq<Entry>, now: nat, checkForTimeouts: bool)
    requires Onward(q, r, entries, now, Checks(q.sent, now, checkForTimeouts)) && Checks(r.sent, now, checkForTimeouts)
    ensures Checks(q.sent, now, checkForTimeouts) || q.sent == []
  {
    hide Reached, Owed, Overdue;
  }

  lemma {:induction false} BooksDeal(b: Books, now: nat, checkForTimeouts: bool, n: nat, k: nat, w: View, r: Account, datagram: seq<Entry>)
    requires AllDealt(b, now, checkForTimeouts, n) && k < |b.views| && k <= n && b.views[k].active
    requires Attends(b.views[k], w, datagram, now, checkForTimeouts)
    requires r.start == b.accounts[k].start && (w.active ==> r.entries == b.accounts[k].entries + datagram)
    ensures AllDealt(AfterTurn(b, k, w, r, datagram), now, checkForTimeouts, if k == n then n + 1 else n)
  {
    hide Dealt, Attends;
    TurnDeals(b.views[k], b.accounts[k], w, r, datagram, now, checkForTimeouts, k < n);
  }

  /** A peer that has no turn. */
  lemma {:induction false} NoTurn(b: Books, now: nat, checkForTimeouts: bool, k: nat)
    requires AllDealt(b, now, checkForTimeouts, k) && k < |b.views| && !b.views[k].active
    ensures AllDealt(b, now, checkForTimeouts, k + 1)
  {
  }

  // The measure of the passes: the phases of all peers, then what is left in them.

  function Phases(views: seq<View>): (p: seq<nat>)
    ensures |p| == |views| && forall i :: 0 <= i < |p| ==> p[i] == PhaseOf(views[i])
  {
    if views == [] then [] else Phases(views[..|views| - 1]) + [PhaseOf(views[|views| - 1])]
  }

  function Lefts(views: seq<View>): (l: seq<nat>)
    ensures |l| == |views| && forall i :: 0 <= i < |l| ==> l[i] == LeftOf(views[i])
  {
    if views == [] then [] else Lefts(views[..|views| - 1]) + [LeftOf(views[|views| - 1])]
  }

  function PhaseOf(v: View): nat { if v.active then Phase(v.now) else 0 }

  function LeftOf(v: View): nat { if v.active then Left(v.now) else 0 }

  function PhaseTotal(views: seq<View>): nat { Total(Phases(views)) }

  function LeftTotal(views: seq<View>): nat { Total(Lefts(views)) }

  ghost predicate Below(v: seq<View>, w: seq<View>) {
    PhaseTotal(v) < PhaseTotal(w) || (PhaseTotal(v) == PhaseTotal(w) && LeftTotal(v) < LeftTotal(w))
  }

  ghost predicate Upto(v: seq<View>, w: seq<View>) {
    PhaseTotal(v) < PhaseTotal(w) || (PhaseTotal(v) == PhaseTotal(w) && LeftTotal(v) <= LeftTotal(w))
  }

  lemma {:induction false} UptoItself(v: seq<View>)
    ensures Upto(v, v)
  {
  }

  /** What a turn does to a peer: it leaves less to do if it sends or asks for another pass. */
  ghost predicate Turned(v: View, w: View) {
    && (PhaseOf(w) < PhaseOf(v) || (PhaseOf(w) == PhaseOf(v) && LeftOf(w) <= LeftOf(v)))
    && (w.flagged ==> PhaseOf(w) < PhaseOf(v) || (PhaseOf(w) == PhaseOf(v) && LeftOf(w) < LeftOf(v)))
    && (w.active && !w.flagged ==> w.drained)
  }

  lemma {:induction false} TurnDescends(views: seq<View>, k: nat, w: View)
    requires k < |views| && Turned(views[k], w)
    ensures Upto(views[k := w], views) && (w.flagged ==> Below(views[k := w], views))
  {
    hide PhaseOf, LeftOf, Total;
    assert Phases(views[k := w]) == Phases(views)[k := PhaseOf(w)];
    assert Lefts(views[k := w]) == Lefts(views)[k := LeftOf(w)];
    TotalUpdate(Phases(views), k, PhaseOf(w));
    TotalUpdate(Lefts(views), k, LeftOf(w));
  }

  lemma {:induction false} UptoChains(u: seq<View>, v: seq<View>, w: seq<View>)
    requires Upto(u, v) && Upto(v, w)
    ensures Upto(u, w) && (Below(u, v) || Below(v, w) ==> Below(u, w))
  {
  }

  /** The books after peer k's turn. */
  function AfterTurn(b: Books, k: nat, w: View, a: Account, datagram: seq<Entry>): Books
    requires k < |b.views| == |b.accounts|
  {
    Books(b.views[k := w], b.accounts[k := a], if datagram == [] then b.datagrams else b.datagrams + [Shipment(k, datagram)])
  }

  lemma {:induction false} TurnIsCorrect(b: Books, starts: seq<PassStart>, mtus: seq<nat>, k: nat, w: View, a: Account,
                                         datagram: seq<Entry>)
    requires Correct(b, starts, mtus) && k < |starts| && Within(datagram, mtus[k]) && a.start == starts[k]
    requires b.views[k].active
    requires w.active ==> w.steady && Balanced(a, w.now) && a.entries == b.accounts[k].entries + datagram
    ensures Correct(AfterTurn(b, k, w, a, datagram), starts, mtus)
  {
    hide Within, Balanced, EntriesFor;
    var c := AfterTurn(b, k, w, a, datagram);
    forall i | 0 <= i < |starts| ensures Booked(c.views[i], c.accounts[i], EntriesFor(c.datagrams, i)) {
      assert Booked(b.views[i], b.accounts[i], EntriesFor(b.datagrams, i));
      OneMoreFor(b.datagrams, Shipment(k, datagram), i);
    }
  }

  class Host {
    const peers: seq<Peer>

    constructor (peers: seq<Peer>)
      ensures this.peers == peers
    {
      this.peers := peers;
    }

    /** Each peer is an object of its own. */
    ghost predicate Apart() {
      forall i, j :: 0 <= i < j < |peers| ==> peers[i] != peers[j] && peers[i].numbering != peers[j].numbering
    }

    ghost function Numberings(): set<object> {
      set i | 0 <= i < |peers| :: peers[i].numbering
    }

    static ghost function ViewOf(p: Peer, now: nat): View
      reads p, p.numbering
    {
      View(p.active, p.Steady(), p.continueSending, p.Drained(), p.StartOf(now))
    }

    ghost predicate Seen(views: seq<View>, now: nat)
      reads peers, Numberings()
    {
      |views| == |peers| && forall i :: 0 <= i < |peers| ==> views[i] == ViewOf(peers[i], now)
    }

    ghost predicate Sizes(mtus: seq<nat>) {
      |mtus| == |peers| && forall i :: 0 <= i < |peers| ==> mtus[i] == peers[i].mtu
    }

    /** The turn of a peer. */
    method VisitPeer(p: Peer, now: nat, checkForTimeouts: bool, event: bool, ghost v: View, ghost a: Account)
      returns (datagram: seq<Entry>, told: bool, ghost w: View, ghost r: Account)
      requires v == ViewOf(p, now) && v.active && v.steady && Balanced(a, v.now)
      modifies p, p.numbering
      ensures w == ViewOf(p, now) && Turned(v, w) && Within(datagram, p.mtu) && r.start == a.start
      ensures w.active ==> w.steady && Balanced(r, w.now) && r.entries == a.entries + datagram
      ensures Attends(v, w, datagram, now, checkForTimeouts)
      ensures (told ==> event && !w.active) && (!w.active ==> datagram == [])
    {
      hide Balanced, Within, Phase, Left, Onward, Reached, Peer.Drained, Peer.Steady;
      datagram, told, r := p.Visit(now, checkForTimeouts, event, a);
      w := ViewOf(p, now);
    }

    method Turn(k: nat, now: nat, checkForTimeouts: bool, event: bool, ghost views: seq<View>, ghost a: Account)
      returns (datagram: seq<Entry>, told: bool, ghost w: View, ghost r: Account)
      requires Apart() && Seen(views, now) && k < |peers| && views[k].active && views[k].steady && Balanced(a, views[k].now)
      modifies peers[k], peers[k].numbering
      ensures Seen(views[k := w], now) && Turned(views[k], w) && Within(datagram, peers[k].mtu) && r.start == a.start
      ensures w.active ==> w.steady && Balanced(r, w.now) && r.entries == a.entries + datagram
      ensures Attends(views[k], w, datagram, now, checkForTimeouts)
      ensures (told ==> event && !w.active) && (!w.active ==> datagram == [])
    {
      hide Balanced, Within, Phase, Left, ViewOf, Turned, Attends;
      datagram, told, w, r := VisitPeer(peers[k], now, checkForTimeouts, event, views[k], a);
      forall i | 0 <= i < |peers| ensures views[k := w][i] == ViewOf(peers[i], now) {
        if i != k { assert peers[i] != peers[k] && peers[i].numbering != peers[k].numbering; }
      }
    }

    /** The peers that pass sendPass visits: all active ones first, then those that asked for another pass. */
    static predicate Skipped(p: Peer, sendPass: nat)
      reads p
    {
      !p.active || (sendPass > 0 && !p.continueSending)
    }

    /** In a pass after the first, what is not flagged has drained. */
    static ghost predicate Settled(v: View, continues: bool) {
      v.active ==> (v.flagged ==> continues) && (!v.flagged ==> v.drained)
    }

    static lemma {:induction false} SkippedIsSettled(p: Peer, v: View, now: nat, sendPass: nat, again: bool)
      requires v == ViewOf(p, now) && Skipped(p, sendPass) && (sendPass > 0 ==> Settled(v, true))
      ensures Settled(v, again) && (sendPass == 0 ==> !v.active)
    {
    }

    static lemma {:induction false} VisitedIsSteady(p: Peer, b: Books, k: nat, now: nat, starts: seq<PassStart>, mtus: seq<nat>)
      requires Correct(b, starts, mtus) && k < |starts| && b.views[k] == ViewOf(p, now) && p.active
      ensures |b.accounts| == |b.views| == |starts| == |mtus| && b.accounts[k].start == starts[k]
      ensures b.views[k].active && b.views[k].steady && Balanced(b.accounts[k], b.views[k].now)
    {
      assert Booked(b.views[k], b.accounts[k], EntriesFor(b.datagrams, k));
    }

    /** During a pass, before peer k: the peers in front of it have had their turns, the others are as they were. */
    static ghost predicate Passing(b: Books, c: Books, starts: seq<PassStart>, mtus: seq<nat>, now: nat, checkForTimeouts: bool,
                                   first: bool, again: bool, k: nat)
    {
      && Correct(c, starts, mtus) && |c.views| == |b.views| == |starts| && Fewer(c.views, b.views)
      && Upto(c.views, b.views) && (again ==> Below(c.views, b.views))
      && (forall i :: 0 <= i < k && i < |starts| ==> Settled(c.views[i], again))
      && (forall i :: k <= i < |starts| ==> c.views[i] == b.views[i])
      && AllDealt(c, now, checkForTimeouts, if first then k else |starts|)
    }

    static lemma {:induction false} PassStartsWith(b: Books, starts: seq<PassStart>, mtus: seq<nat>, now: nat, checkForTimeouts: bool, first: bool)
      requires Correct(b, starts, mtus) && AllDealt(b, now, checkForTimeouts, if first then 0 else |starts|)
      ensures Passing(b, b, starts, mtus, now, checkForTimeouts, first, false, 0)
    {
      hide EntriesFor, Balanced, Within, AllDealt;
      UptoItself(b.views);
    }

    static lemma {:induction false} PassSkips(b: Books, c: Books, starts: seq<PassStart>, mtus: seq<nat>, now: nat,
                                              checkForTimeouts: bool, first: bool, again: bool, k: nat)
      requires Passing(b, c, starts, mtus, now, checkForTimeouts, first, again, k) && k < |starts|
      requires Settled(c.views[k], again) && (first ==> !c.views[k].active)
      ensures Passing(b, c, starts, mtus, now, checkForTimeouts, first, again, k + 1)
    {
      hide Correct, Upto, Below, AllDealt, Settled;
      if first { NoTurn(c, now, checkForTimeouts, k); }
    }

    static lemma {:induction false} PassTurns(b: Books, c: Books, starts: seq<PassStart>, mtus: seq<nat>, now: nat,
                                              checkForTimeouts: bool, first: bool, again: bool, k: nat, w: View, a: Account,
                                              datagram: seq<Entry>)
      requires Passing(b, c, starts, mtus, now, checkForTimeouts, first, again, k) && k < |starts| && c.views[k].active
      requires |c.accounts| == |starts| == |mtus|
      requires Turned(c.views[k], w) && Within(datagram, mtus[k]) && a.start == starts[k] == c.accounts[k].start
      requires w.active ==> w.steady && Balanced(a, w.now) && a.entries == c.accounts[k].entries + datagram
      requires Attends(c.views[k], w, datagram, now, checkForTimeouts)
      ensures Passing(b, AfterTurn(c, k, w, a, datagram), starts, mtus, now, checkForTimeouts, first, again || w.flagged, k + 1)
    {
      hide Correct, Upto, Below, AllDealt, Within, Balanced, Turned, Attends;
      TurnIsCorrect(c, starts, mtus, k, w, a, datagram);
      TurnDescends(c.views, k, w);
      UptoChains(c.views[k := w], c.views, b.views);
      BooksDeal(c, now, checkForTimeouts, if first then k else |starts|, k, w, a, datagram);
      TurnedIsSettled(c.views[k], w);
    }

    static lemma {:induction false} TurnedIsSettled(v: View, w: View)
      requires Turned(v, w)
      ensures Settled(w, w.flagged)
    {
    }

    static lemma {:induction false} PassEnds(b: Books, c: Books, starts: seq<PassStart>, mtus: seq<nat>, now: nat, checkForTimeouts: bool,
                                             first: bool, again: bool, k: nat)
      requires Passing(b, c, starts, mtus, now, checkForTimeouts, first, again, k) && k <= |starts|
      ensures Correct(c, starts, mtus) && Upto(c.views, b.views) && Fewer(c.views, b.views) && (again ==> Below(c.views, b.views))
      ensures |c.accounts| == |c.views| == |starts| == |mtus|
      ensures |b.views| == |starts| && (k < |starts| ==> c.views[k] == b.views[k])
      ensures k == |starts| ==>
                AllDealt(c, now, checkForTimeouts, |starts|) && forall i :: 0 <= i < |starts| ==> Settled(c.views[i], again)
    {
      hide EntriesFor, Balanced, Within, AllDealt, Settled;
    }

    static lemma {:induction false} Flagged(p: Peer, now: nat)
      ensures ViewOf(p, now).flagged == p.continueSending && ViewOf(p, now).active == p.active
    {
    }

    /** One pass over the peers. It ends early when the network fails or the end of a connection is to be reported. */
    method Pass(sendPass: nat, now: nat, checkForTimeouts: bool, event: bool, sends: nat, datagrams: seq<Shipment>,
                ghost b: Books, ghost starts: seq<PassStart>, ghost mtus: seq<nat>)
      returns (code: int, again: bool, datagrams': seq<Shipment>, ghost c: Books)
      requires Apart() && Seen(b.views, now) && Sizes(mtus) && |starts| == |peers| && Correct(b, starts, mtus)
      requires b.datagrams == datagrams
      requires |datagrams| <= sends && (sendPass > 0 ==> forall i :: 0 <= i < |peers| ==> Settled(b.views[i], true))
      requires AllDealt(b, now, checkForTimeouts, if sendPass > 0 then |peers| else 0)
      modifies peers, Numberings()
      ensures Seen(c.views, now) && Correct(c, starts, mtus) && c.datagrams == datagrams' && Upto(c.views, b.views)
      ensures Fewer(c.views, b.views) && (code == 0 ==> AllDealt(c, now, checkForTimeouts, |peers|))
      ensures code == 0 ==> |datagrams'| <= sends && (again ==> Below(c.views, b.views))
                            && forall i :: 0 <= i < |peers| ==> Settled(c.views[i], again)
      ensures code == 1 ==> event && |datagrams'| <= sends
      ensures code == -1 ==> |datagrams'| == sends + 1
      ensures code == 0 || code == 1 || code == -1
    {
      hide Correct, Balanced, Within, ViewOf, Upto, Below, Turned, Attends, AllDealt, Passing, Fewer, Settled;
      code, again, datagrams', c := 0, false, datagrams, b;
      ghost var first := sendPass == 0;
      PassStartsWith(b, starts, mtus, now, checkForTimeouts, first);
      for k: nat := 0 to |peers|
        invariant Seen(c.views, now) && c.datagrams == datagrams' && |datagrams'| <= sends
        invariant Passing(b, c, starts, mtus, now, checkForTimeouts, first, again, k)
      {
        PassEnds(b, c, starts, mtus, now, checkForTimeouts, first, again, k);
        if Skipped(peers[k], sendPass) {
          SkippedIsSettled(peers[k], c.views[k], now, sendPass, again);
          PassSkips(b, c, starts, mtus, now, checkForTimeouts, first, again, k);
          continue;
        }
        VisitedIsSteady(peers[k], c, k, now, starts, mtus);
        var datagram, told;
        ghost var w, a;
        datagram, told, w, a := Turn(k, now, checkForTimeouts, event, c.views, c.accounts[k]);
        PassTurns(b, c, starts, mtus, now, checkForTimeouts, first, again, k, w, a, datagram);
        c := AfterTurn(c, k, w, a, datagram);
        PassEnds(b, c, starts, mtus, now, checkForTimeouts, first, again || w.flagged, k + 1);
        if told {
          return 1, again, datagrams', c;
        }
        if datagram != [] {
          datagrams' := datagrams' + [Shipment(k, datagram)];
          if |datagrams'| > sends {
            return -1, again, datagrams', c;
          }
        }
        assert w.flagged == peers[k].continueSending by { Flagged(peers[k], now); }
        if peers[k].continueSending {
          again := true;
        }
      }
      PassEnds(b, c, starts, mtus, now, checkForTimeouts, first, again, |peers|);
    }

    ghost function StartsOf(n: nat, now: nat): (starts: seq<PassStart>)
      reads peers, Numberings()
      requires n <= |peers|
      ensures |starts| == n && forall i :: 0 <= i < n ==> starts[i] == peers[i].StartOf(now)
    {
      if n == 0 then [] else StartsOf(n - 1, now) + [peers[n - 1].StartOf(now)]
    }

    ghost method Look(now: nat) returns (views: seq<View>)
      ensures Seen(views, now)
    {
      hide ViewOf;
      views := [];
      for k: nat := 0 to |peers|
        invariant |views| == k && forall i :: 0 <= i < k ==> views[i] == ViewOf(peers[i], now)
      {
        views := views + [ViewOf(peers[k], now)];
      }
    }

    ghost function SizesOf(n: nat): (mtus: seq<nat>)
      requires n <= |peers|
      ensures |mtus| == n && forall i :: 0 <= i < n ==> mtus[i] == peers[i].mtu
    {
      if n == 0 then [] else SizesOf(n - 1) + [peers[n - 1].mtu]
    }

    /** `enet_protocol_send_outgoing_commands`. The passes end. If the network fails nowhere and nothing is reported,
        every peer that still sends has drained: what is left is a reliable list whose first command is held back, and a
        command that windows and throttle permit is among it if and only if it stands behind one they hold back. At any
        end the datagrams of a peer, what the throttle dropped and what is left are what there was to send. `sends` is how
        many datagrams the network takes, `event` whether the application waits for one. */
    method SendOutgoingCommands(now: nat, checkForTimeouts: bool, event: bool, sends: nat)
      returns (code: int, datagrams: seq<Shipment>, ghost accounts: seq<Account>)
      requires Apart() && forall i :: 0 <= i < |peers| && peers[i].active ==> peers[i].Steady()
      modifies peers, Numberings()
      ensures |accounts| == |peers| && forall i :: 0 <= i < |peers| && peers[i].active ==> old(peers[i].active)
      ensures forall i :: 0 <= i < |peers| && peers[i].active ==>
                && peers[i].Steady() && Balanced(accounts[i], peers[i].StartOf(now))
                && accounts[i].start == old(peers[i].StartOf(now)) && accounts[i].entries == EntriesFor(datagrams, i)
      ensures forall g :: g in datagrams ==> g.peer < |peers| && g.entries != [] && Within(g.entries, peers[g.peer].mtu)
      ensures code == 0 ==>
                forall i :: 0 <= i < |peers| && peers[i].active ==>
                  Onward(old(peers[i].State()), peers[i].State(), EntriesFor(datagrams, i), now,
                         Checks(old(peers[i].sentReliableCommands), now, checkForTimeouts))
      ensures code == 0 ==>
                |datagrams| <= sends
                && forall i :: 0 <= i < |peers| && peers[i].active ==>
                     peers[i].Drained() && (peers[i].PermittedWaits() <==> peers[i].PermittedBehindHeld())
      ensures code == 1 ==> event && |datagrams| <= sends
      ensures code == -1 ==> |datagrams| == sends + 1
      ensures code == 0 || code == 1 || code == -1
    {
      hide Balanced, Within, Phase, Left, ViewOf, Upto, Below, Turned, Correct, Fewer, Were, AllDealt, Onward, Reached, Peer.Drained,
           Peer.PermittedWaits, Peer.PermittedBehindHeld, Peer.Steady;
      ghost var starts, mtus := StartsOf(|peers|, now), SizesOf(|peers|);
      StartQueues(starts, now);
      ghost var b;
      b := Open(now, checkForTimeouts, starts, mtus);
      FewerItself(b.views);
      ghost var first, were := b.views, ActivesOf(|peers|);
      ActiveSeen(first, now, were);
      code, datagrams := 0, [];
      var sendPass, continueSending := 0, 0;
      while sendPass <= continueSending
        invariant Seen(b.views, now) && Correct(b, starts, mtus) && b.datagrams == datagrams && |datagrams| <= sends
        invariant continueSending <= sendPass && code == 0 && Fewer(b.views, first)
        invariant sendPass > 0 ==> forall i :: 0 <= i < |peers| ==> Settled(b.views[i], sendPass <= continueSending)
        invariant AllDealt(b, now, checkForTimeouts, if sendPass > 0 then |peers| else 0)
        decreases PhaseTotal(b.views), LeftTotal(b.views), if sendPass <= continueSending then 1 else 0
      {
        ghost var before := b.views;
        var again;
        code, again, datagrams, b := Pass(sendPass, now, checkForTimeouts, event, sends, datagrams, b, starts, mtus);
        FewerStill(b.views, before, first);
        if code != 0 {
          break;
        }
        if again {
          continueSending := sendPass + 1;
        }
        Falls(b.views, before, again);
        sendPass := sendPass + 1;
      }
      accounts := b.accounts;
      Closed(b, now, checkForTimeouts, code == 0, starts, mtus, first, were);
    }

    /** Which peers send. */
    ghost function ActivesOf(n: nat): (actives: seq<bool>)
      reads peers
      requires n <= |peers|
      ensures |actives| == n && forall i :: 0 <= i < n ==> actives[i] == peers[i].active
    {
      if n == 0 then [] else ActivesOf(n - 1) + [peers[n - 1].active]
    }

    ghost predicate Were(views: seq<View>, were: seq<bool>) {
      |views| == |were| && forall i :: 0 <= i < |views| ==> views[i].active ==> were[i]
    }

    lemma {:induction false} ActiveSeen(views: seq<View>, now: nat, were: seq<bool>)
      requires Seen(views, now) && were == ActivesOf(|peers|)
      ensures Were(views, were)
    {
    }

    ghost method Open(now: nat, checkForTimeouts: bool, starts: seq<PassStart>, mtus: seq<nat>) returns (b: Books)
      requires forall i :: 0 <= i < |peers| && peers[i].active ==> peers[i].Steady()
      requires starts == StartsOf(|peers|, now) && mtus == SizesOf(|peers|)
      ensures Seen(b.views, now) && Correct(b, starts, mtus) && b.datagrams == [] && AllDealt(b, now, checkForTimeouts, 0)
    {
      hide Balanced, Within, Peer.Steady, Peer.StartOf, Peer.Drained, Onward, Reached;
      var views := Look(now);
      b := Books(views, Opening(starts), []);
      forall i | 0 <= i < |starts| ensures Booked(b.views[i], b.accounts[i], EntriesFor(b.datagrams, i)) {
        BalanceStarts(starts[i]);
      }
    }

    lemma {:induction false} Closed(b: Books, now: nat, checkForTimeouts: bool, done: bool, starts: seq<PassStart>, mtus: seq<nat>, first: seq<View>, were: seq<bool>)
      requires Seen(b.views, now) && Correct(b, starts, mtus) && Sizes(mtus) && Fewer(b.views, first) && Were(first, were)
      requires done ==> AllDealt(b, now, checkForTimeouts, |peers|)
      ensures |were| == |peers| && forall i :: 0 <= i < |peers| && peers[i].active ==> were[i]
      ensures |b.accounts| == |peers| == |starts|
      ensures forall i :: 0 <= i < |peers| && peers[i].active ==>
                && peers[i].Steady() && Balanced(b.accounts[i], peers[i].StartOf(now)) && b.accounts[i].start == starts[i]
                && b.accounts[i].entries == EntriesFor(b.datagrams, i)
      ensures forall g :: g in b.datagrams ==> g.peer < |peers| && g.entries != [] && Within(g.entries, peers[g.peer].mtu)
      ensures forall i :: 0 <= i < |peers| && peers[i].active && Settled(b.views[i], false) ==>
                peers[i].Drained() && (peers[i].PermittedWaits() <==> peers[i].PermittedBehindHeld())
      ensures done ==> forall i :: 0 <= i < |peers| && peers[i].active ==>
                Onward(starts[i].core.q, peers[i].State(), EntriesFor(b.datagrams, i), now,
                       Checks(starts[i].core.q.sent, now, checkForTimeouts))
    {
      hide Onward, Reached, Balanced, Within, Peer.PermittedWaits, Peer.PermittedBehindHeld, Peer.Drained;
      forall i | 0 <= i < |peers| && peers[i].active && Settled(b.views[i], false)
        ensures peers[i].Drained() && (peers[i].PermittedWaits() <==> peers[i].PermittedBehindHeld())
      {
        peers[i].DrainedExactly();
      }
      forall i | 0 <= i < |peers| && peers[i].active
        ensures peers[i].Steady() && Balanced(b.accounts[i], peers[i].StartOf(now)) && b.accounts[i].start == starts[i]
                && b.accounts[i].entries == EntriesFor(b.datagrams, i)
      {
        assert Booked(b.views[i], b.accounts[i], EntriesFor(b.datagrams, i));
        assert done ==> Dealt(b.views[i], b.accounts[i], now, checkForTimeouts, true);
      }
    }

    /** What the starts say of the queues. */
    lemma {:induction false} StartQueues(starts: seq<PassStart>, now: nat)
      requires starts == StartsOf(|peers|, now)
      ensures forall i :: 0 <= i < |peers| ==>
                starts[i].core.q == peers[i].State() && starts[i].core.q.sent == peers[i].sentReliableCommands
    {
    }
  }

  function Opening(starts: seq<PassStart>): (a: seq<Account>)
    ensures |a| == |starts| && forall i :: 0 <= i < |a| ==> a[i] == Account(starts[i], [], [], multiset{})
  {
    if starts == [] then [] else Opening(starts[..|starts| - 1]) + [Account(starts[|starts| - 1], [], [], multiset{})]
  }

  lemma {:induction false} FewerItself(v: seq<View>)
    ensures Fewer(v, v)
  {
  }

  lemma {:induction false} FewerStill(u: seq<View>, v: seq<View>, w: seq<View>)
    requires Fewer(u, v) && Fewer(v, w)
    ensures Fewer(u, w)
  {
  }

  lemma {:induction false} Falls(v: seq<View>, w: seq<View>, again: bool)
    requires Upto(v, w) && (again ==> Below(v, w))
    ensures PhaseTotal(v) < PhaseTotal(w)
            || (PhaseTotal(v) == PhaseTotal(w) && LeftTotal(v) <= LeftTotal(w) && (again ==> LeftTotal(v) < LeftTotal(w)))
  {
  }
}
