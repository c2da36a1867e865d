/** The states of a host's peers, the counters kept for them, and the events the application sees. */
module Lifecycle {
  import opened Totals
  import opened Bandwidth

  datatype State =
    | Disconnected | Connecting | AcknowledgingConnect | ConnectionPending | ConnectionSucceeded
    | Connected | DisconnectLater | Disconnecting | AcknowledgingDisconnect | Zombie

  datatype Member = Member(state: State, incomingBandwidth: nat)

  /** What happens to a peer: it is taken into use by a remote request or by the application, and the events the
      application is given. */
  datatype Entry = Accepted(peer: nat) | Initiated(peer: nat) | Connect(peer: nat) | Receive(peer: nat) | Disconnect(peer: nat)

  function Became(m: Member, s: State): Member {
    if s == m.state then m else if s == Disconnected then Member(s, 0) else m.(state := s)
  }

  predicate Live(s: State) { s == Connected || s == DisconnectLater }

  /** The states at or after CONNECTION_SUCCEEDED. */
  predicate Late(s: State) {
    s != Disconnected && s != Connecting && s != AcknowledgingConnect && s != ConnectionPending
  }

  /** The application has been told of a connection that has not ended. */
  predicate Announced(log: seq<Entry>, k: nat) {
    if log == [] then false
    else
      var e := log[|log| - 1];
      if e.peer == k && !e.Receive? then e.Connect? else Announced(log[..|log| - 1], k)
  }

  /** The peer was last taken into use by the application itself. */
  predicate OwnAttempt(log: seq<Entry>, k: nat) {
    if log == [] then false
    else
      var e := log[|log| - 1];
      if e.peer == k && (e.Accepted? || e.Initiated?) then e.Initiated? else OwnAttempt(log[..|log| - 1], k)
  }

  /** Packets are received only on announced connections, and only the application's own attempts may end without
      one. */
  predicate Orderly(log: seq<Entry>) {
    if log == [] then true
    else
      var e, before := log[|log| - 1], log[..|log| - 1];
      && Orderly(before)
      && (e.Receive? ==> Announced(before, e.peer))
      && (e.Disconnect? ==> Announced(before, e.peer) || OwnAttempt(before, e.peer))
  }

  lemma {:induction false} OneMoreEntry(log: seq<Entry>, e: Entry, k: nat)
    ensures Announced(log + [e], k) == if e.peer == k && !e.Receive? then e.Connect? else Announced(log, k)
    ensures OwnAttempt(log + [e], k) == if e.peer == k && (e.Accepted? || e.Initiated?) then e.Initiated? else OwnAttempt(log, k)
    ensures Orderly(log + [e]) <==>
            && Orderly(log) && (e.Receive? ==> Announced(log, e.peer))
            && (e.Disconnect? ==> Announced(log, e.peer) || OwnAttempt(log, e.peer))
  {
    assert (log + [e])[..|log|] == log;
  }

  /** An announced peer had its CONNECT event, and nothing but received packets since. */
  lemma {:induction false} AnnouncedSince(log: seq<Entry>, k: nat) returns (j: nat)
    requires Announced(log, k)
    ensures j < |log| && log[j] == Connect(k)
    ensures forall m :: j < m < |log| && log[m].peer == k ==> log[m].Receive?
  {
    var n := |log| - 1;
    if log[n].peer == k && !log[n].Receive? {
      j := n;
    } else {
      j := AnnouncedSince(log[..n], k);
    }
  }

  /** In an orderly log every RECEIVE follows a CONNECT of the same connection, and so does every DISCONNECT of a
      peer that was accepted. */
  lemma {:induction false} EventsFollowConnect(log: seq<Entry>, i: nat)
    requires Orderly(log) && i < |log| && (log[i].Receive? || (log[i].Disconnect? && !OwnAttempt(log[..i], log[i].peer)))
    ensures exists j :: 0 <= j < i && log[j] == Connect(log[i].peer)
                        && forall m :: j < m < i && log[m].peer == log[i].peer ==> log[m].Receive?
  {
    var n := |log| - 1;
    if i < n {
      assert log[..n][..i] == log[..i];
      EventsFollowConnect(log[..n], i);
      var j :| 0 <= j < i && log[..n][j] == Connect(log[i].peer)
               && forall m :: j < m < i && log[..n][m].peer == log[i].peer ==> log[..n][m].Receive?;
      assert log[j] == Connect(log[i].peer);
      assert forall m :: j < m < i ==> log[m] == log[..n][m];
    } else {
      var j := AnnouncedSince(log[..n], log[n].peer);
      assert log[j] == Connect(log[i].peer);
      assert forall m :: j < m < i ==> log[m] == log[..n][m];
    }
  }

  /** What the log says about a peer in a given state. */
  predicate Explains(log: seq<Entry>, k: nat, s: State) {
    match s
    case Disconnected | AcknowledgingConnect | ConnectionPending => true
    case Connecting | ConnectionSucceeded => OwnAttempt(log, k)
    case Connected | DisconnectLater | Disconnecting | AcknowledgingDisconnect => Announced(log, k)
    case Zombie => Announced(log, k) || OwnAttempt(log, k)
  }

  function LiveFlags(peers: seq<Member>): (v: seq<nat>)
    ensures |v| == |peers|
    ensures forall i :: 0 <= i < |v| ==>
              v[i] == if peers[i].state == Connected || peers[i].state == DisconnectLater then 1 else 0
  {
    if peers == [] then [] else [if Live(peers[0].state) then 1 else 0] + LiveFlags(peers[1..])
  }

  function LimitedFlags(peers: seq<Member>): (v: seq<nat>)
    ensures |v| == |peers|
    ensures forall i :: 0 <= i < |v| ==>
              v[i] == if (peers[i].state == Connected || peers[i].state == DisconnectLater) && peers[i].incomingBandwidth != 0
                      then 1 else 0
  {
    if peers == [] then []
    else [if Live(peers[0].state) && peers[0].incomingBandwidth != 0 then 1 else 0] + LimitedFlags(peers[1..])
  }

  function LiveCount(m: Member): nat { if Live(m.state) then 1 else 0 }

  function LimitedCount(m: Member): nat { if Live(m.state) && m.incomingBandwidth != 0 then 1 else 0 }

  lemma {:induction false} CountsChange(peers: seq<Member>, k: nat, m: Member)
    requires k < |peers|
    ensures Total(LiveFlags(peers[k := m])) + LiveCount(peers[k]) == Total(LiveFlags(peers)) + LiveCount(m)
    ensures Total(LimitedFlags(peers[k := m])) + LimitedCount(peers[k]) == Total(LimitedFlags(peers)) + LimitedCount(m)
    ensures LiveCount(peers[k]) <= Total(LiveFlags(peers)) && LimitedCount(peers[k]) <= Total(LimitedFlags(peers))
  {
    hide LiveFlags, LimitedFlags, Total;
    assert LiveFlags(peers[k := m]) == LiveFlags(peers)[k := LiveCount(m)];
    assert LimitedFlags(peers[k := m]) == LimitedFlags(peers)[k := LimitedCount(m)];
    TotalUpdate(LiveFlags(peers), k, LiveCount(m));
    TotalUpdate(LimitedFlags(peers), k, LimitedCount(m));
    TotalCovers(LiveFlags(peers), k);
    TotalCovers(LimitedFlags(peers), k);
  }

  lemma {:induction false} NobodyCounts(peers: seq<Member>)
    requires forall i :: 0 <= i < |peers| ==> !Live(peers[i].state)
    ensures Total(LiveFlags(peers)) == 0 && Total(LimitedFlags(peers)) == 0
  {
    hide LiveFlags, LimitedFlags;
    TotalOfNothing(LiveFlags(peers));
    TotalOfNothing(LimitedFlags(peers));
  }

  class Host {
    var peers: array<Member>
    var connectedPeers: nat
    var bandwidthLimitedPeers: nat

    /** Everything that has happened so far. */
    ghost var log: seq<Entry>

    /** Only peer k has changed. */
    twostate predicate Others(k: nat)
      reads this, peers
    {
      && peers == old(peers) && peers.Length == old(peers.Length)
      && forall i :: 0 <= i < peers.Length && i != k ==> peers[i] == old(peers[i])
    }

    /** Peer k has at most changed its state, and lost its bandwidth if it was reset. */
    twostate predicate Moved(k: nat)
      requires k < peers.Length && peers.Length == old(peers.Length)
      reads this, peers
    {
      Others(k) && peers[k] == Became(old(peers[k]), peers[k].state)
    }

    /** The counters agree with the states. */
    ghost predicate Counted()
      reads this, peers
    {
      connectedPeers == Total(LiveFlags(peers[..])) && bandwidthLimitedPeers == Total(LimitedFlags(peers[..]))
    }

    ghost predicate Valid()
      reads this, peers
    {
      Counted() && Orderly(log) && forall k :: 0 <= k < peers.Length ==> Explains(log, k, peers[k].state)
    }

    /** A host starts with all its peers free: they are zeroed and reset. */
    constructor (peerCount: nat)
      ensures Valid() && fresh(peers) && log == [] && peers.Length == peerCount
      ensures forall k :: 0 <= k < peerCount ==> peers[k] == Member(Disconnected, 0)
    {
      hide LiveFlags, LimitedFlags, Total;
      peers := new Member[peerCount](_ => Member(Disconnected, 0));
      connectedPeers, bandwidthLimitedPeers, log := 0, 0, [];
      new;
      NobodyCounts(peers[..]);
    }

    /** `enet_peer_on_connect` or `enet_peer_on_disconnect`, then the new state. */
    method ChangeState(k: nat, state: State)
      requires k < peers.Length && Counted()
      modifies this`connectedPeers, this`bandwidthLimitedPeers, peers
      ensures Counted() && peers[..] == old(peers[..])[k := old(peers[k]).(state := state)]
    {
      hide LiveFlags, LimitedFlags, Total;
      var peer := peers[k];
      CountsChange(peers[..], k, peer.(state := state));
      if Live(state) {
        if !Live(peer.state) {
          if peer.incomingBandwidth != 0 {
            bandwidthLimitedPeers := bandwidthLimitedPeers + 1;
          }
          connectedPeers := connectedPeers + 1;
        }
      } else if Live(peer.state) {
        if peer.incomingBandwidth != 0 {
          bandwidthLimitedPeers := bandwidthLimitedPeers - 1;
        }
        connectedPeers := connectedPeers - 1;
      }
      ghost var seen := peers[..];
      peers[k] := peer.(state := state);
      assert peers[..] == seen[k := peer.(state := state)];
    }

    /** A change of state that the log explains. */
    method Enter(k: nat, state: State)
      requires k < peers.Length && Valid() && Explains(log, k, state)
      modifies this`connectedPeers, this`bandwidthLimitedPeers, peers
      ensures Valid() && peers[..] == old(peers[..])[k := old(peers[k]).(state := state)]
    {
      hide LiveFlags, LimitedFlags, Total, Announced, OwnAttempt, Orderly;
      ghost var seen := peers[..];
      ChangeState(k, state);
      assert forall i :: 0 <= i < peers.Length ==> peers[i] == peers[..][i] && seen[i] == old(peers[i]);
    }

    /** A peer that is not connected may change its bandwidth without touching the counters. */
    method SetBandwidth(k: nat, incomingBandwidth: nat)
      requires k < peers.Length && Valid() && !Live(peers[k].state)
      modifies peers
      ensures Valid() && peers[..] == old(peers[..])[k := old(peers[k]).(incomingBandwidth := incomingBandwidth)]
    {
      hide LiveFlags, LimitedFlags, Total, Announced, OwnAttempt, Orderly;
      ghost var seen := peers[..];
      CountsChange(seen, k, peers[k].(incomingBandwidth := incomingBandwidth));
      peers[k] := peers[k].(incomingBandwidth := incomingBandwidth);
      assert peers[..] == seen[k := seen[k].(incomingBandwidth := incomingBandwidth)];
    }

    /** `enet_peer_reset`: the counters first, then state and bandwidth. */
    method Reset(k: nat)
      requires k < peers.Length && Valid()
      modifies this`connectedPeers, this`bandwidthLimitedPeers, peers
      ensures Valid() && peers[..] == old(peers[..])[k := Member(Disconnected, 0)]
    {
      hide LiveFlags, LimitedFlags, Total, Announced, OwnAttempt, Orderly, Valid;
      assert Explains(log, k, Disconnected);
      ghost var seen := peers[..];
      Enter(k, Disconnected);
      assert peers[k] == peers[..][k];
      SetBandwidth(k, 0);
      assert peers[..] == seen[k := Member(Disconnected, 0)];
    }

    /** An event for peer k, which has just got the state it has. */
    ghost method Note(e: Entry)
      requires Counted() && Orderly(log)
      requires e.Receive? ==> Announced(log, e.peer)
      requires e.Disconnect? ==> Announced(log, e.peer) || OwnAttempt(log, e.peer)
      requires forall k :: 0 <= k < peers.Length && k != e.peer ==> Explains(log, k, peers[k].state)
      requires e.peer < peers.Length ==> Explains(log + [e], e.peer, peers[e.peer].state)
      modifies this`log
      ensures Valid() && log == old(log) + [e]
    {
      hide Total, LiveFlags, LimitedFlags, Announced, OwnAttempt, Orderly;
      OneMoreEntry(log, e, e.peer);
      forall k: nat | k < peers.Length ensures Explains(log + [e], k, peers[k].state) {
        OneMoreEntry(log, e, k);
      }
      log := log + [e];
    }

    /** `enet_protocol_notify_connect`; `event` says that the caller waits for an event. */
    method NotifyConnect(k: nat, event: bool)
      requires k < peers.Length && Valid() && (peers[k].state == Connecting || peers[k].state == AcknowledgingConnect)
      modifies this, peers
      ensures peers == old(peers) && Moved(k) && Valid()
      ensures event ==> log == old(log) + [Connect(k)] && peers[k].state == Connected
      ensures !event ==> log == old(log)
                         && peers[k].state == if old(peers[k].state) == Connecting then ConnectionSucceeded else ConnectionPending
    {
      hide LiveFlags, LimitedFlags, Total, Announced, OwnAttempt, Orderly;
      if event {
        OneMoreEntry(log, Connect(k), k);
        Note(Connect(k));
        Enter(k, Connected);
      } else {
        Enter(k, if peers[k].state == Connecting then ConnectionSucceeded else ConnectionPending);
      }
      assert peers[k] == peers[..][k];
    }

    /** `enet_protocol_notify_disconnect`: a connection the application never heard of ends silently, unless the
        application asked for it. */
    method NotifyDisconnect(k: nat, event: bool)
      requires k < peers.Length && Valid()
      modifies this, peers
      ensures peers == old(peers) && Others(k) && Valid()
      ensures var before := old(peers[k].state);
              var silent := before == Disconnected || before == AcknowledgingConnect || before == ConnectionPending;
              && (silent ==> peers[k] == Member(Disconnected, 0) && log == old(log))
              && (!silent && event ==> peers[k] == Member(Disconnected, 0) && log == old(log) + [Disconnect(k)])
              && (!silent && !event ==> peers[k] == old(peers[k]).(state := Zombie) && log == old(log))
    {
      hide LiveFlags, LimitedFlags, Total, Announced, OwnAttempt, Orderly;
      var state := peers[k].state;
      if state != Connecting && !Late(state) {
        Reset(k);
      } else if event {
        Reset(k);
        assert peers[k] == peers[..][k];
        Note(Disconnect(k));
      } else {
        Enter(k, Zombie);
      }
      assert peers[k] == peers[..][k];
    }

    /** `enet_host_connect` takes a free peer into use. */
    method HostConnect(k: nat)
      requires k < peers.Length && Valid() && peers[k].state == Disconnected
      modifies this, peers
      ensures peers == old(peers) && Moved(k) && Valid() && log == old(log) + [Initiated(k)] && peers[k].state == Connecting
    {
      hide LiveFlags, LimitedFlags, Total, Announced, OwnAttempt, Orderly;
      OneMoreEntry(log, Initiated(k), k);
      Note(Initiated(k));
      Enter(k, Connecting);
      assert peers[k] == peers[..][k];
    }

    /** `enet_protocol_handle_connect`, once it has found a free peer for the request. */
    method HandleConnect(k: nat, incomingBandwidth: nat)
      requires k < peers.Length && Valid() && peers[k].state == Disconnected
      modifies this, peers
      ensures Others(k) && Valid() && peers == old(peers) && log == old(log) + [Accepted(k)]
      ensures peers[k] == Member(AcknowledgingConnect, incomingBandwidth)
    {
      hide LiveFlags, LimitedFlags, Total, Announced, OwnAttempt, Orderly;
      Note(Accepted(k));
      Enter(k, AcknowledgingConnect);
      assert peers[k] == peers[..][k];
      SetBandwidth(k, incomingBandwidth);
      assert peers[k] == peers[..][k];
    }

    /** `enet_protocol_handle_verify_connect`; `valid` says that the answer agrees with the request. */
    method HandleVerifyConnect(k: nat, valid: bool, incomingBandwidth: nat, event: bool)
      requires k < peers.Length && Valid()
      modifies this, peers
      ensures Others(k) && Valid() && peers == old(peers)
      ensures old(peers[k].state) != Connecting ==> peers[..] == old(peers[..]) && log == old(log)
      ensures old(peers[k].state) == Connecting && !valid ==> peers[k] == old(peers[k]).(state := Zombie) && log == old(log)
      ensures old(peers[k].state) == Connecting && valid ==>
                && log == old(log) + (if event then [Connect(k)] else [])
                && peers[k] == Member(if event then Connected else ConnectionSucceeded, incomingBandwidth)
    {
      hide LiveFlags, LimitedFlags, Total, Announced, OwnAttempt, Orderly;
      if peers[k].state != Connecting {
        return;
      }
      if !valid {
        Enter(k, Zombie);
        assert peers[k] == peers[..][k];
        return;
      }
      SetBandwidth(k, incomingBandwidth);
      assert peers[k] == peers[..][k];
      NotifyConnect(k, event);
    }

    /** The part of `enet_protocol_handle_acknowledge` that depends on the state. `verified` and `ended` say that
        the command acknowledged was VERIFY_CONNECT or DISCONNECT. */
    method HandleAcknowledge(k: nat, verified: bool, ended: bool, hasOutgoing: bool, event: bool) returns (code: int)
      requires k < peers.Length && Valid()
      modifies this, peers
      ensures peers == old(peers) && Moved(k) && Valid()
      ensures code == if old(peers[k].state) == AcknowledgingConnect && !verified then -1
                      else if old(peers[k].state) == Disconnecting && !ended then -1 else 0
      ensures match old(peers[k].state)
              case AcknowledgingConnect =>
                verified ==> && log == old(log) + (if event then [Connect(k)] else [])
                             && peers[k].state == if event then Connected else ConnectionPending
              case Disconnecting =>
                ended ==> && log == old(log) + (if event then [Disconnect(k)] else [])
                          && peers[k].state == if event then Disconnected else Zombie
              case DisconnectLater => log == old(log) && peers[k].state == if hasOutgoing then DisconnectLater else Disconnecting
              case _ => peers[..] == old(peers[..]) && log == old(log)
      ensures code == -1 ==> peers[..] == old(peers[..]) && log == old(log)
    {
      hide Valid;
      code := 0;
      match peers[k].state {
        case AcknowledgingConnect =>
          if !verified {
            return -1;
          }
          NotifyConnect(k, event);
        case Disconnecting =>
          if !ended {
            return -1;
          }
          NotifyDisconnect(k, event);
        case DisconnectLater =>
          if !hasOutgoing {
            PeerDisconnect(k);
          }
        case _ =>
      }
    }

    /** `enet_peer_disconnect`. */
    method PeerDisconnect(k: nat)
      requires k < peers.Length && Valid()
      modifies this, peers
      ensures peers == old(peers) && Moved(k) && Valid() && log == old(log)
      ensures peers[k].state ==
              match old(peers[k].state)
              case Disconnecting | Disconnected | AcknowledgingDisconnect | Zombie => old(peers[k].state)
              case Connected | DisconnectLater => Disconnecting
              case _ => Disconnected
    {
      hide LiveFlags, LimitedFlags, Total, Announced, OwnAttempt, Orderly;
      match peers[k].state {
        case Disconnecting | Disconnected | AcknowledgingDisconnect | Zombie => return;
        case Connected | DisconnectLater => Enter(k, Disconnecting);
        case _ => Reset(k);
      }
      assert peers[k] == peers[..][k];
    }

    /** `enet_peer_disconnect_later`. */
    method PeerDisconnectLater(k: nat, hasOutgoing: bool)
      requires k < peers.Length && Valid()
      modifies this, peers
      ensures peers == old(peers) && Moved(k) && Valid() && log == old(log)
      ensures peers[k].state ==
              match old(peers[k].state)
              case Connected | DisconnectLater => if hasOutgoing then DisconnectLater else Disconnecting
              case Disconnecting | Disconnected | AcknowledgingDisconnect | Zombie => old(peers[k].state)
              case _ => Disconnected
    {
      hide LiveFlags, LimitedFlags, Total, Announced, OwnAttempt, Orderly;
      if Live(peers[k].state) && hasOutgoing {
        Enter(k, DisconnectLater);
        assert peers[k] == peers[..][k];
      } else {
        PeerDisconnect(k);
      }
    }

    /** `enet_peer_disconnect_now`. */
    method PeerDisconnectNow(k: nat)
      requires k < peers.Length && Valid()
      modifies this, peers
      ensures peers == old(peers) && Moved(k) && Valid() && log == old(log) && peers[k].state == Disconnected
    {
      hide Valid;
      if peers[k].state == Disconnected {
        return;
      }
      Reset(k);
      assert peers[k] == peers[..][k];
    }

    /** `enet_protocol_handle_disconnect`; `acknowledge` says that the command asks for an acknowledgement. */
    method HandleDisconnect(k: nat, acknowledge: bool)
      requires k < peers.Length && Valid()
      modifies this, peers
      ensures peers == old(peers) && Moved(k) && Valid() && log == old(log)
      ensures peers[k].state ==
              match old(peers[k].state)
              case Disconnected | Zombie | AcknowledgingDisconnect => old(peers[k].state)
              case ConnectionSucceeded | Disconnecting | Connecting => Zombie
              case Connected | DisconnectLater => if acknowledge then AcknowledgingDisconnect else Zombie
              case _ => Disconnected
    {
      hide LiveFlags, LimitedFlags, Total, Announced, OwnAttempt, Orderly;
      var state := peers[k].state;
      if state == Disconnected || state == Zombie || state == AcknowledgingDisconnect {
        return;
      }
      if state == ConnectionSucceeded || state == Disconnecting || state == Connecting {
        Enter(k, Zombie);
      } else if !Live(state) {
        Reset(k);
      } else if acknowledge {
        Enter(k, AcknowledgingDisconnect);
      } else {
        Enter(k, Zombie);
      }
      assert peers[k] == peers[..][k];
    }

    /** The acknowledgement of a DISCONNECT goes out. */
    method AcknowledgeDisconnect(k: nat)
      requires k < peers.Length && Valid() && peers[k].state == AcknowledgingDisconnect
      modifies this, peers
      ensures peers == old(peers) && Moved(k) && Valid() && log == old(log) && peers[k].state == Zombie
    {
      hide LiveFlags, LimitedFlags, Total, Announced, OwnAttempt, Orderly;
      Enter(k, Zombie);
      assert peers[k] == peers[..][k];
    }

    /** `enet_protocol_handle_bandwidth_limit`. */
    method HandleBandwidthLimit(k: nat, incomingBandwidth: nat) returns (code: int)
      requires k < peers.Length && Valid()
      modifies this, peers
      ensures Others(k) && Valid() && peers == old(peers) && log == old(log)
      ensures code == if old(peers[k].state) == Connected || old(peers[k].state) == DisconnectLater then 0 else -1
      ensures peers[..] == if code == 0 then old(peers[..])[k := old(peers[k]).(incomingBandwidth := incomingBandwidth)]
                           else old(peers[..])
    {
      hide LiveFlags, LimitedFlags, Total, Announced, OwnAttempt, Orderly;
      var peer := peers[k];
      if !Live(peer.state) {
        return -1;
      }
      ghost var seen := peers[..];
      CountsChange(seen, k, peer.(incomingBandwidth := incomingBandwidth));
      if peer.incomingBandwidth != 0 {
        bandwidthLimitedPeers := bandwidthLimitedPeers - 1;
      }
      peers[k] := peer.(incomingBandwidth := incomingBandwidth);
      assert peers[..] == seen[k := peer.(incomingBandwidth := incomingBandwidth)];
      if peers[k].incomingBandwidth != 0 {
        bandwidthLimitedPeers := bandwidthLimitedPeers + 1;
      }
      code := 0;
    }

    /** One turn of `enet_protocol_dispatch_incoming_commands` for a peer taken from the dispatch queue; `waiting` says
        that it has dispatched packets. */
    method DispatchPeer(k: nat, waiting: bool) returns (event: bool)
      requires k < peers.Length && Valid()
      modifies this, peers
      ensures peers == old(peers) && Moved(k) && Valid()
      ensures match old(peers[k].state)
              case ConnectionPending | ConnectionSucceeded =>
                event && log == old(log) + [Connect(k)] && peers[k].state == Connected
              case Zombie => event && log == old(log) + [Disconnect(k)] && peers[k].state == Disconnected
              case Connected =>
                event == waiting && log == old(log) + (if waiting then [Receive(k)] else []) && peers[..] == old(peers[..])
              case _ => !event && log == old(log) && peers[..] == old(peers[..])
    {
      hide LiveFlags, LimitedFlags, Total, Announced, OwnAttempt, Orderly;
      match peers[k].state {
        case ConnectionPending | ConnectionSucceeded =>
          OneMoreEntry(log, Connect(k), k);
          Note(Connect(k));
          Enter(k, Connected);
          assert peers[k] == peers[..][k];
          event := true;
        case Zombie =>
          Reset(k);
          assert peers[k] == peers[..][k];
          Note(Disconnect(k));
          event := true;
        case Connected =>
          event := waiting;
          if waiting {
            OneMoreEntry(log, Receive(k), k);
            Note(Receive(k));
          }
        case _ =>
          event := false;
      }
    }
  }
}
