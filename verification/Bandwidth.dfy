/** The two water-filling loops that share a host's bandwidth among its connected peers. */
module Bandwidth {
  import opened Totals

  const SCALE := 32
  const INTERVAL := 1000
  const WORD := 0x1_0000_0000

  /** Unsigned 32-bit arithmetic. */
  function U32(x: int): nat { x % WORD }

  datatype Peer = Peer(connected: bool, incomingBandwidth: nat, outgoingBandwidth: nat, outgoingDataTotal: nat,
                       incomingDataTotal: nat, packetThrottle: nat, packetThrottleLimit: nat,
                       outgoingEpoch: nat, incomingEpoch: nat)

  // The outgoing loop.

  /** A connected peer whose limit has not been fixed in this round. */
  predicate Open(p: Peer, now: nat) { p.connected && p.outgoingEpoch != now }

  function Data(peers: seq<Peer>, now: nat): (v: seq<nat>)
    ensures |v| == |peers|
    ensures forall i :: 0 <= i < |v| ==> v[i] == if Open(peers[i], now) then peers[i].outgoingDataTotal else 0
  {
    if peers == [] then []
    else [if Open(peers[0], now) then peers[0].outgoingDataTotal else 0] + Data(peers[1..], now)
  }

  function Ones(peers: seq<Peer>, now: nat): (v: seq<nat>)
    ensures |v| == |peers| && forall i :: 0 <= i < |v| ==> v[i] == if Open(peers[i], now) then 1 else 0
  {
    if peers == [] then [] else [if Open(peers[0], now) then 1 else 0] + Ones(peers[1..], now)
  }

  /** What the open peers may send at a throttle out of 32. */
  function Share(p: Peer, throttle: nat): nat { throttle * p.outgoingDataTotal / SCALE }

  function Shares(peers: seq<Peer>, now: nat, throttle: nat): (v: seq<nat>)
    ensures |v| == |peers|
    ensures forall i :: 0 <= i < |v| ==> v[i] == if Open(peers[i], now) then Share(peers[i], throttle) else 0
  {
    if peers == [] then []
    else [if Open(peers[0], now) then Share(peers[0], throttle) else 0] + Shares(peers[1..], now, throttle)
  }

  /** What a peer may be sent in the time that has passed, by its own rate; the product is cut to 32 bits. */
  function PeerBandwidth(p: Peer, elapsed: nat): nat { U32(p.incomingBandwidth * elapsed) / 1000 }

  /** What has been promised to the peers whose limit is fixed. */
  function Fixed(peers: seq<Peer>, now: nat, elapsed: nat): (v: seq<nat>)
    ensures |v| == |peers|
    ensures forall i :: 0 <= i < |v| ==>
              v[i] == if peers[i].connected && !Open(peers[i], now) then PeerBandwidth(peers[i], elapsed) else 0
  {
    if peers == [] then []
    else
      [if peers[0].connected && !Open(peers[0], now) then PeerBandwidth(peers[0], elapsed) else 0]
      + Fixed(peers[1..], now, elapsed)
  }

  /** The throttle that lets `dataTotal` through `bandwidth`. */
  function Throttle(dataTotal: nat, bandwidth: nat): (t: nat)
    ensures t <= SCALE
  {
    if dataTotal <= bandwidth then SCALE else
      Quotient(bandwidth * SCALE, dataTotal, SCALE);
      bandwidth * SCALE / dataTotal
  }

  lemma {:induction false} Quotient(x: nat, y: nat, z: nat)
    requires y > 0 && x < y * z
    ensures x / y < z
  {
    if x / y >= z { Times(z, x / y, y); }
  }

  lemma {:induction false} Times(a: nat, b: nat, y: nat)
    requires a <= b
    ensures a * y <= b * y
  {
  }

  /** Rounded shares never exceed the rounded whole. */
  lemma {:induction false} SharesBelow(peers: seq<Peer>, now: nat, throttle: nat)
    ensures SCALE * Total(Shares(peers, now, throttle)) <= throttle * Total(Data(peers, now))
  {
    hide Share, Total;
    forall i | 0 <= i < |peers| ensures Scaled(Shares(peers, now, throttle)[i], throttle, Data(peers, now)[i]) {
      OneShare(peers[i], throttle);
    }
    SumsScaled(Shares(peers, now, throttle), throttle, Data(peers, now));
  }

  predicate Scaled(s: nat, t: nat, d: nat) { SCALE * s <= t * d }

  lemma {:induction false} SumsScaled(s: seq<nat>, t: nat, d: seq<nat>)
    requires |s| == |d| && forall i :: 0 <= i < |s| ==> Scaled(s[i], t, d[i])
    ensures SCALE * Total(s) <= t * Total(d)
  {
    if s == [] {
      assert t * 0 == 0;
    } else {
      var n := |s| - 1;
      SumsScaled(s[..n], t, d[..n]);
      assert Scaled(s[n], t, d[n]);
      Combine(t, Total(s[..n]), s[n], Total(d[..n]), d[n]);
    }
  }

  lemma {:induction false} OneShare(p: Peer, throttle: nat)
    ensures Scaled(Share(p, throttle), throttle, p.outgoingDataTotal) && Scaled(0, throttle, 0)
  {
    ShareRounds(throttle, p.outgoingDataTotal);
  }

  lemma {:induction false} Combine(t: nat, s: nat, s1: nat, d: nat, d1: nat)
    requires SCALE * s <= t * d && SCALE * s1 <= t * d1
    ensures SCALE * (s + s1) <= t * (d + d1)
  {
    Distributes(t, d, d1);
  }

  lemma {:induction false} ShareRounds(throttle: nat, data: nat)
    ensures SCALE * (throttle * data / SCALE) <= throttle * data
  {
  }

  lemma {:induction false} Distributes(t: nat, a: nat, b: nat)
    ensures t * (a + b) == t * a + t * b
  {
  }

  /** At the throttle for `dataTotal`, the open peers stay within `bandwidth`. */
  lemma {:induction false} SharesFit(peers: seq<Peer>, now: nat, dataTotal: nat, bandwidth: nat)
    requires Total(Data(peers, now)) <= dataTotal
    ensures Total(Shares(peers, now, Throttle(dataTotal, bandwidth))) <= bandwidth
  {
    hide Total, Data, Shares;
    var t := Throttle(dataTotal, bandwidth);
    SharesBelow(peers, now, t);
    ThrottleFits(Total(Data(peers, now)), dataTotal, bandwidth);
  }

  lemma {:induction false} ThrottleFits(d: nat, dataTotal: nat, bandwidth: nat)
    requires d <= dataTotal
    ensures Throttle(dataTotal, bandwidth) * d <= bandwidth * SCALE
  {
    var t := Throttle(dataTotal, bandwidth);
    if dataTotal > bandwidth {
      Euclid(bandwidth * SCALE, dataTotal);
      Times(d, dataTotal, t);
    }
  }

  lemma {:induction false} Euclid(x: nat, y: nat)
    requires y > 0
    ensures x / y * y <= x
  {
  }

  /** The round so far: what is left of the budget covers what the open peers may still send at throttle t. */
  ghost predicate Level(peers: seq<Peer>, now: nat, elapsed: nat, t: nat, bandwidth: nat, dataTotal: nat, remaining: nat, budget: nat) {
    && Total(Shares(peers, now, t)) <= bandwidth && Total(Data(peers, now)) <= dataTotal
    && remaining == Total(Ones(peers, now)) && bandwidth + Total(Fixed(peers, now, elapsed)) == budget
  }

  /** A peer that gets less than its share: its own bandwidth limits it. */
  predicate TooMuch(p: Peer, now: nat, elapsed: nat, t: nat) {
    Open(p, now) && p.incomingBandwidth != 0 && Share(p, t) > PeerBandwidth(p, elapsed)
  }

  function Limit(bandwidth: nat, data: nat): nat
    requires data > 0
  {
    var limit := bandwidth * SCALE / data;
    if limit == 0 then 1 else limit
  }

  function Least(a: nat, b: nat): nat { if a > b then b else a }

  /** A peer with its limit fixed to its own bandwidth. */
  function Closed(p: Peer, now: nat, elapsed: nat): Peer
    requires p.outgoingDataTotal > 0
  {
    var limit := Limit(PeerBandwidth(p, elapsed), p.outgoingDataTotal);
    p.(packetThrottleLimit := limit, packetThrottle := Least(p.packetThrottle, limit), outgoingEpoch := now,
       incomingDataTotal := 0, outgoingDataTotal := 0)
  }

  /** A peer with the common limit. */
  function Shared(p: Peer, t: nat): Peer {
    p.(packetThrottleLimit := t, packetThrottle := Least(p.packetThrottle, t), incomingDataTotal := 0, outgoingDataTotal := 0)
  }

  /** Fixing a peer's limit takes less from the budget than the share it had. */
  lemma {:induction false} FixedKeepsLevel(peers: seq<Peer>, k: nat, now: nat, elapsed: nat, t: nat,
                                           bandwidth: nat, dataTotal: nat, remaining: nat, budget: nat)
    requires Level(peers, now, elapsed, t, bandwidth, dataTotal, remaining, budget) && k < |peers| && t <= SCALE
    requires TooMuch(peers[k], now, elapsed, t)
    ensures var pb := PeerBandwidth(peers[k], elapsed);
            && pb < peers[k].outgoingDataTotal && pb < Share(peers[k], t) <= bandwidth
            && pb <= dataTotal && remaining > 0
            && Level(peers[k := Closed(peers[k], now, elapsed)], now, elapsed, t, bandwidth - pb, dataTotal - pb, remaining - 1, budget)
  {
    hide Total, Data, Ones, Shares, Fixed, Share, Limit, PeerBandwidth;
    var p, pb := peers[k], PeerBandwidth(peers[k], elapsed);
    ShareAtMost(p, t);
    var after := peers[k := Closed(p, now, elapsed)];
    ClosedBandwidth(p, now, elapsed);
    assert Data(after, now) == Data(peers, now)[k := 0];
    assert Ones(after, now) == Ones(peers, now)[k := 0];
    assert Shares(after, now, t) == Shares(peers, now, t)[k := 0];
    assert Fixed(after, now, elapsed) == Fixed(peers, now, elapsed)[k := pb];
    TotalUpdate(Data(peers, now), k, 0);
    TotalUpdate(Ones(peers, now), k, 0);
    TotalUpdate(Shares(peers, now, t), k, 0);
    TotalUpdate(Fixed(peers, now, elapsed), k, pb);
  }

  lemma {:induction false} ClosedBandwidth(p: Peer, now: nat, elapsed: nat)
    requires p.outgoingDataTotal > 0
    ensures PeerBandwidth(Closed(p, now, elapsed), elapsed) == PeerBandwidth(p, elapsed)
  {
  }

  lemma {:induction false} ShareAtMost(p: Peer, t: nat)
    requires t <= SCALE
    ensures Share(p, t) <= p.outgoingDataTotal
  {
    Times(t, SCALE, p.outgoingDataTotal);
    Shrink(t * p.outgoingDataTotal, p.outgoingDataTotal);
  }

  lemma {:induction false} Shrink(x: nat, y: nat)
    requires x <= SCALE * y
    ensures x / SCALE <= y
  {
  }

  /** The shares of the peers fit 32 bits. */
  ghost predicate InRange(peers: seq<Peer>) {
    forall i :: 0 <= i < |peers| && peers[i].connected ==> SCALE * peers[i].outgoingDataTotal < WORD
  }

  /** What the round has done to the peers it has looked at, and nothing to the others. */
  ghost predicate Follows(before: seq<Peer>, peers: seq<Peer>, now: nat, elapsed: nat) {
    && |peers| == |before|
    && forall i :: 0 <= i < |peers| ==>
         peers[i] == before[i] || (Limited(before[i], now, elapsed) && peers[i] == Closed(before[i], now, elapsed))
  }

  /** A peer whose own bandwidth is below what it has to send. */
  predicate Limited(p: Peer, now: nat, elapsed: nat) {
    Open(p, now) && p.incomingBandwidth != 0 && PeerBandwidth(p, elapsed) < p.outgoingDataTotal
  }

  class Host {
    var peers: array<Peer>
    var connectedPeers: nat
    var bandwidthLimitedPeers: nat
    var incomingBandwidth: nat
    var outgoingBandwidth: nat
    var bandwidthThrottleEpoch: nat
    var recalculateBandwidthLimits: bool

    /** One pass of the first loop: every peer that would get more than its own bandwidth is fixed to it. */
    method FixPass(now: nat, elapsed: nat, t: nat, b: nat, d: nat, r: nat, ghost budget: nat, ghost before: seq<Peer>)
      returns (needsAdjustment: bool, bandwidth: nat, dataTotal: nat, peersRemaining: nat)
      requires Level(peers[..], now, elapsed, t, b, d, r, budget) && t <= SCALE && b < WORD && d < WORD && r < WORD
      requires Follows(before, peers[..], now, elapsed) && InRange(before)
      modifies peers
      ensures Level(peers[..], now, elapsed, t, bandwidth, dataTotal, peersRemaining, budget)
      ensures bandwidth <= b && dataTotal <= d && peersRemaining <= r && b - bandwidth == d - dataTotal
      ensures Follows(before, peers[..], now, elapsed)
      ensures !needsAdjustment ==>
                && bandwidth == b && dataTotal == d && peersRemaining == r
                && forall j :: 0 <= j < peers.Length ==> !TooMuch(peers[j], now, elapsed, t)
      ensures needsAdjustment ==> peersRemaining < r
    {
      hide Level, Follows, InRange, TooMuch, Closed, PeerBandwidth, Share, U32;
      needsAdjustment, bandwidth, dataTotal, peersRemaining := false, b, d, r;
      var i: nat := 0;
      while i < peers.Length
        invariant i <= peers.Length
        invariant Level(peers[..], now, elapsed, t, bandwidth, dataTotal, peersRemaining, budget)
        invariant Follows(before, peers[..], now, elapsed)
        invariant bandwidth <= b && dataTotal <= d && peersRemaining <= r && b - bandwidth == d - dataTotal
        invariant !needsAdjustment ==>
                    && bandwidth == b && dataTotal == d && peersRemaining == r
                    && forall j :: 0 <= j < i ==> !TooMuch(peers[j], now, elapsed, t)
        invariant needsAdjustment ==> peersRemaining < r
      {
        var fix := WantsFix(i, now, elapsed, t, before);
        if fix {
          ghost var seen := peers[..];
          FixedKeepsLevel(seen, i, now, elapsed, t, bandwidth, dataTotal, peersRemaining, budget);
          var peerBandwidth := Fix(i, now, elapsed, t, before);
          NoWrap(peersRemaining - 1);
          NoWrap(bandwidth - peerBandwidth);
          NoWrap(dataTotal - peerBandwidth);
          needsAdjustment := true;
          peersRemaining := U32(peersRemaining - 1);
          bandwidth := U32(bandwidth - peerBandwidth);
          dataTotal := U32(dataTotal - peerBandwidth);
        }
        i := i + 1;
      }
    }

    /** What the round asks for: counts that agree with the peers, no epoch equal to the time, and data totals that
        fit 32 bits, each with room for the scale of the throttle. */
    ghost predicate CanThrottle(now: nat, elapsed: nat)
      reads this, peers
    {
      && (forall p :: p in peers[..] && p.connected ==> p.outgoingEpoch != now)
      && connectedPeers == Total(Ones(peers[..], now)) < WORD
      && (bandwidthLimitedPeers == 0 ==> forall p :: p in peers[..] && p.connected ==> p.incomingBandwidth == 0)
      && InRange(peers[..]) && Total(Data(peers[..], now)) < WORD
    }

    /** What the host may send in the time that has passed, the product cut to 32 bits; 0 stands for no limit. */
    function Budget(elapsed: nat): nat
      reads this
    {
      U32(outgoingBandwidth * elapsed) / 1000
    }

    /** The outgoing half of `enet_host_bandwidth_throttle`. */
    method ThrottleOutgoing(now: nat, elapsed: nat) returns (ghost t: nat)
      requires CanThrottle(now, elapsed)
      modifies peers
      ensures t <= SCALE && Settled(old(peers[..]), peers[..], now, elapsed, t)
      ensures outgoingBandwidth != 0 ==> Total(Costs(old(peers[..]), peers[..], now, elapsed)) <= Budget(elapsed)
      ensures Best(old(peers[..]), peers[..], now, elapsed, t, outgoingBandwidth)
      ensures forall i :: 0 <= i < peers.Length ==> LimitIsBest(old(peers[..])[i], peers[i], now, elapsed, t)
    {
      hide Total, Data, Ones, Fixed, InRange, Settled, Costs, TooMuch, Follows, Throttle, U32, Best, LimitIsBest, OwnRates, AllData;
      ghost var before := peers[..];
      var dataTotal: nat, bandwidth: nat := WORD - 1, WORD - 1;
      var peersRemaining: nat, needsAdjustment := connectedPeers, bandwidthLimitedPeers > 0;
      if outgoingBandwidth != 0 {
        bandwidth := U32(outgoingBandwidth * elapsed) / 1000;
        dataTotal := SumData(now);
        RateFits(outgoingBandwidth * elapsed);
      }
      ghost var budget, whole := bandwidth, dataTotal;
      RoundStarts(before, now, elapsed, dataTotal, bandwidth, peersRemaining, needsAdjustment);
      while peersRemaining > 0 && needsAdjustment
        invariant Round(before, peers[..], now, elapsed, dataTotal, bandwidth, peersRemaining, needsAdjustment, budget)
        invariant bandwidth < WORD && dataTotal < WORD && peersRemaining < WORD
        invariant dataTotal <= bandwidth || bandwidth * SCALE < WORD
        invariant dataTotal + budget == whole + bandwidth
        decreases peersRemaining, if needsAdjustment then 1 else 0
      {
        var throttle := CommonThrottle(dataTotal, bandwidth);
        RoundLevels(before, peers[..], now, elapsed, dataTotal, bandwidth, peersRemaining, needsAdjustment, budget);
        ghost var d, b := dataTotal, bandwidth;
        needsAdjustment, bandwidth, dataTotal, peersRemaining :=
          FixPass(now, elapsed, throttle, bandwidth, dataTotal, peersRemaining, budget, before);
        RoundPassed(before, peers[..], now, elapsed, throttle, d, b, dataTotal, bandwidth, peersRemaining, needsAdjustment, budget);
      }
      var common := CommonThrottle(dataTotal, bandwidth);
      t := common;
      ghost var mid := peers[..];
      if peersRemaining > 0 {
        ShareRest(now, common);
      } else {
        NobodyOpen(mid, now);
      }
      RoundEnds(before, mid, peers[..], now, elapsed, dataTotal, bandwidth, peersRemaining, needsAdjustment, budget);
      LimitsAreBest(before, peers[..], now, elapsed, t);
      WholeIs(before, now, outgoingBandwidth, elapsed);
      RoundIsBest(before, mid, peers[..], now, elapsed, dataTotal, bandwidth, peersRemaining, needsAdjustment, budget, whole,
                  outgoingBandwidth);
    }

    /** `enet_host_bandwidth_throttle`. Nothing is done more often than once an interval. */
    method BandwidthThrottle(timeCurrent: nat)
      returns (throttled: bool, recalculated: bool, bandwidthLimit: nat, grants: seq<nat>, ghost t: nat, ghost mid: seq<Peer>)
      requires U32(timeCurrent - bandwidthThrottleEpoch) >= INTERVAL && connectedPeers > 0 ==>
                 && CanThrottle(timeCurrent, U32(timeCurrent - bandwidthThrottleEpoch)) && incomingBandwidth < WORD
                 && connectedPeers == Total(Places(peers[..], timeCurrent))
                 && forall p :: p in peers[..] && p.connected ==> p.incomingEpoch != timeCurrent
      modifies this`bandwidthThrottleEpoch, this`recalculateBandwidthLimits, peers
      ensures throttled <==> U32(timeCurrent - old(bandwidthThrottleEpoch)) >= INTERVAL && connectedPeers > 0
      ensures recalculated <==> throttled && old(recalculateBandwidthLimits)
      ensures bandwidthThrottleEpoch ==
              if (timeCurrent - old(bandwidthThrottleEpoch)) % 0x1_0000_0000 >= 1000 then timeCurrent else old(bandwidthThrottleEpoch)
      ensures recalculateBandwidthLimits == (old(recalculateBandwidthLimits) && !throttled)
      ensures !throttled ==> peers[..] == old(peers[..])
      ensures throttled ==>
                var elapsed := U32(timeCurrent - old(bandwidthThrottleEpoch));
                && |old(peers[..])| == peers.Length && t <= SCALE
                && Settled(old(peers[..]), mid, timeCurrent, elapsed, t) && SameRates(mid, peers[..])
                && (outgoingBandwidth != 0 ==> Total(Costs(old(peers[..]), mid, timeCurrent, elapsed)) <= Budget(elapsed))
                && Best(old(peers[..]), mid, timeCurrent, elapsed, t, outgoingBandwidth)
                && forall i :: 0 <= i < |mid| ==> LimitIsBest(old(peers[..])[i], mid[i], timeCurrent, elapsed, t)
      ensures recalculated && incomingBandwidth == 0 ==> forall i :: 0 <= i < |grants| ==> grants[i] == 0
      ensures recalculated && incomingBandwidth != 0 ==>
                && |grants| == peers.Length && Total(grants) <= incomingBandwidth
                && (forall i :: 0 <= i < |grants| ==> grants[i] == Grant(peers[i], bandwidthLimit))
                && LargestLimit(peers[..], bandwidthLimit, incomingBandwidth)
    {
      hide Total, Places, Settled, SameRates, Costs, Grant, Best, LimitIsBest, LargestLimit;
      throttled, recalculated, bandwidthLimit, grants, t, mid := false, false, 0, [], 0, [];
      ghost var before := peers[..];
      var elapsed := U32(timeCurrent - bandwidthThrottleEpoch);
      if elapsed < INTERVAL {
        return;
      }
      bandwidthThrottleEpoch := timeCurrent;
      if connectedPeers == 0 {
        return;
      }
      throttled := true;
      t := ThrottleOutgoing(timeCurrent, elapsed);
      mid := peers[..];
      RatesSame(mid);
      SettledPlaces(before, mid, timeCurrent, elapsed, t);
      if recalculateBandwidthLimits {
        recalculateBandwidthLimits := false;
        recalculated := true;
        bandwidthLimit, grants := GrantIncoming(timeCurrent);
      }
    }

    method SumData(now: nat) returns (dataTotal: nat)
      requires forall p :: p in peers[..] && p.connected ==> p.outgoingEpoch != now
      requires Total(Data(peers[..], now)) < WORD
      ensures dataTotal == Total(Data(peers[..], now))
    {
      hide Data, Total;
      dataTotal := 0;
      var i: nat := 0;
      NoneSummed(peers[..], now);
      while i < peers.Length
        invariant i <= peers.Length && dataTotal == Total(Data(peers[..], now)[..i])
      {
        OneSummed(peers[..], now, i);
        if peers[i].connected {
          assert peers[i] in peers[..];
          dataTotal := U32(dataTotal + peers[i].outgoingDataTotal);
        }
        i := i + 1;
      }
      assert Data(peers[..], now)[..i] == Data(peers[..], now);
    }

    method CommonThrottle(dataTotal: nat, bandwidth: nat) returns (throttle: nat)
      requires dataTotal <= bandwidth || bandwidth * SCALE < WORD
      ensures throttle == Throttle(dataTotal, bandwidth)
    {
      if dataTotal <= bandwidth {
        throttle := SCALE;
      } else {
        NoWrap(bandwidth * SCALE);
        throttle := U32(bandwidth * SCALE) / dataTotal;
      }
    }

    /** The last loop: the peers still open share one throttle. */
    method ShareRest(now: nat, throttle: nat)
      modifies peers
      ensures forall j :: 0 <= j < peers.Length ==>
                peers[j] == if Open(old(peers[..])[j], now) then Shared(old(peers[..])[j], throttle) else old(peers[..])[j]
    {
      ghost var mid := peers[..];
      var i: nat := 0;
      while i < peers.Length
        invariant i <= peers.Length
        invariant forall j :: 0 <= j < peers.Length ==>
                    peers[j] == if j < i && Open(mid[j], now) then Shared(mid[j], throttle) else mid[j]
      {
        if peers[i].connected && peers[i].outgoingEpoch != now {
          peers[i] := Shared(peers[i], throttle);
        }
        i := i + 1;
      }
    }

    /** The tests that lead past a peer. */
    method WantsFix(i: nat, now: nat, elapsed: nat, t: nat, ghost before: seq<Peer>) returns (fix: bool)
      requires i < peers.Length && Follows(before, peers[..], now, elapsed) && InRange(before) && t <= SCALE
      ensures fix <==> TooMuch(peers[i], now, elapsed, t)
    {
      var peer := peers[i];
      if !peer.connected || peer.incomingBandwidth == 0 || peer.outgoingEpoch == now {
        return false;
      }
      OpenInRange(before, peers[..], now, elapsed, i, t);
      NoWrap(t * peer.outgoingDataTotal);
      hide U32;
      var peerBandwidth := U32(peer.incomingBandwidth * elapsed) / 1000;
      fix := U32(t * peer.outgoingDataTotal) / SCALE > peerBandwidth;
    }

    method Fix(i: nat, now: nat, elapsed: nat, ghost t: nat, ghost before: seq<Peer>) returns (peerBandwidth: nat)
      requires i < peers.Length && Follows(before, peers[..], now, elapsed) && InRange(before) && t <= SCALE
      requires TooMuch(peers[i], now, elapsed, t)
      modifies peers
      ensures peerBandwidth == old(PeerBandwidth(peers[i], elapsed)) < old(peers[i]).outgoingDataTotal
      ensures peers[..] == old(peers[..])[i := Closed(old(peers[i]), now, elapsed)]
      ensures Follows(before, peers[..], now, elapsed)
    {
      hide U32, Limit, Share, PeerBandwidth;
      var peer := peers[i];
      OpenInRange(before, peers[..], now, elapsed, i, t);
      ProductsFit(peer, now, elapsed, t);
      peerBandwidth := U32(peer.incomingBandwidth * elapsed) / 1000;
      var limit := U32(peerBandwidth * SCALE) / peer.outgoingDataTotal;
      if limit == 0 {
        limit := 1;
      }
      var throttle := peer.packetThrottle;
      if throttle > limit {
        throttle := limit;
      }
      ghost var seen := peers[..];
      peers[i] := peer.(packetThrottleLimit := limit, packetThrottle := throttle, outgoingEpoch := now,
                        incomingDataTotal := 0, outgoingDataTotal := 0);
      assert peers[..] == seen[i := Closed(peer, now, elapsed)];
    }

    /** One pass of the second loop: every peer that cannot send as much as the common share keeps its own rate. */
    method GrantPass(now: nat, limit: nat, b: nat, r: nat) returns (needsAdjustment: bool, bandwidth: nat, peersRemaining: nat)
      requires Filled(peers[..], now, limit, b, r, incomingBandwidth) && b < WORD && r < WORD
      modifies peers
      ensures Filled(peers[..], now, limit, bandwidth, peersRemaining, incomingBandwidth) && SameRates(old(peers[..]), peers[..])
      ensures bandwidth <= b && peersRemaining <= r
      ensures !needsAdjustment ==>
                && bandwidth == b && peersRemaining == r
                && forall j :: 0 <= j < peers.Length && Waiting(peers[j], now) ==> AtLimit(peers[j], limit)
      ensures needsAdjustment ==> peersRemaining < r
    {
      hide Filled, SameRates, U32;
      needsAdjustment, bandwidth, peersRemaining := false, b, r;
      var i: nat := 0;
      RatesSame(peers[..]);
      while i < peers.Length
        invariant i <= peers.Length && bandwidth <= b && peersRemaining <= r
        invariant Filled(peers[..], now, limit, bandwidth, peersRemaining, incomingBandwidth) && SameRates(old(peers[..]), peers[..])
        invariant !needsAdjustment ==>
                    && bandwidth == b && peersRemaining == r
                    && forall j :: 0 <= j < i && Waiting(peers[j], now) ==> AtLimit(peers[j], limit)
        invariant needsAdjustment ==> peersRemaining < r
      {
        var peer := peers[i];
        if Waiting(peer, now) && !AtLimit(peer, limit) {
          ghost var seen := peers[..];
          GrantKeeps(seen, i, now, limit, bandwidth, peersRemaining, incomingBandwidth);
          NoWrap(peersRemaining - 1);
          NoWrap(bandwidth - peer.outgoingBandwidth);
          peers[i] := peer.(incomingEpoch := now);
          assert peers[..] == seen[i := peer.(incomingEpoch := now)];
          RatesKept(old(peers[..]), seen, i, now);
          needsAdjustment := true;
          peersRemaining := U32(peersRemaining - 1);
          bandwidth := U32(bandwidth - peer.outgoingBandwidth);
        }
        i := i + 1;
      }
    }

    /** The incoming half of `enet_host_bandwidth_throttle`: what each peer is told it may send, 0 for a peer that is
        not connected. A connected peer with no limit of its own is told 0, which stands for no limit. */
    method GrantIncoming(now: nat) returns (bandwidthLimit: nat, grants: seq<nat>)
      requires connectedPeers == Total(Places(peers[..], now)) && connectedPeers < WORD && incomingBandwidth < WORD
      requires forall p :: p in peers[..] && p.connected ==> p.incomingEpoch != now
      modifies peers
      ensures SameRates(old(peers[..]), peers[..]) && |grants| == peers.Length
      ensures incomingBandwidth != 0 ==>
                && (forall i :: 0 <= i < |grants| ==> grants[i] == Grant(peers[i], bandwidthLimit))
                && Total(grants) <= incomingBandwidth && LargestLimit(peers[..], bandwidthLimit, incomingBandwidth)
      ensures incomingBandwidth == 0 ==> forall i :: 0 <= i < |grants| ==> grants[i] == 0
    {
      hide Filled, SameRates, Places, Total, LargestLimit;
      ghost var before := peers[..];
      var peersRemaining: nat, bandwidth: nat, needsAdjustment := connectedPeers, incomingBandwidth, true;
      bandwidthLimit := 0;
      RatesSame(before);
      FillStarts(before, now, peersRemaining, incomingBandwidth);
      if bandwidth != 0 {
        while peersRemaining > 0 && needsAdjustment
          invariant Filled(peers[..], now, bandwidthLimit, bandwidth, peersRemaining, incomingBandwidth) && SameRates(before, peers[..])
          invariant bandwidth < WORD && peersRemaining < WORD
          invariant !needsAdjustment ==>
                      && peersRemaining > 0 && bandwidthLimit == bandwidth / peersRemaining
                      && forall j :: 0 <= j < peers.Length && Waiting(peers[j], now) ==> AtLimit(peers[j], bandwidthLimit)
          decreases peersRemaining, if needsAdjustment then 1 else 0
        {
          FillRises(peers[..], now, bandwidthLimit, bandwidth, peersRemaining, incomingBandwidth);
          bandwidthLimit := bandwidth / peersRemaining;
          ghost var seen := peers[..];
          needsAdjustment, bandwidth, peersRemaining := GrantPass(now, bandwidthLimit, bandwidth, peersRemaining);
          RatesChain(before, seen, peers[..]);
        }
      }
      grants := QueueLimits(now, bandwidthLimit);
      assert incomingBandwidth == 0 ==> forall i :: 0 <= i < peers.Length ==> peers[i] in before;
      if incomingBandwidth != 0 {
        LimitIsLargest(peers[..], now, bandwidthLimit, bandwidth, peersRemaining, incomingBandwidth, needsAdjustment);
        FillEnds(peers[..], now, bandwidthLimit, bandwidth, peersRemaining, incomingBandwidth, needsAdjustment, grants);
      }
    }

    /** The last loop: each connected peer is told its own rate or the common limit. */
    method QueueLimits(now: nat, bandwidthLimit: nat) returns (grants: seq<nat>)
      ensures |grants| == peers.Length
      ensures forall i :: 0 <= i < |grants| ==>
                grants[i] == if !peers[i].connected then 0
                             else if peers[i].incomingEpoch == now then peers[i].outgoingBandwidth else bandwidthLimit
    {
      grants := [];
      var i: nat := 0;
      while i < peers.Length
        invariant i == |grants| <= peers.Length
        invariant forall j :: 0 <= j < i ==>
                    grants[j] == if !peers[j].connected then 0
                                 else if peers[j].incomingEpoch == now then peers[j].outgoingBandwidth else bandwidthLimit
      {
        var peer := peers[i];
        grants := grants + [if !peer.connected then 0 else if peer.incomingEpoch == now then peer.outgoingBandwidth else bandwidthLimit];
        i := i + 1;
      }
    }
  }

  /** A rate cut to 32 bits leaves room for the scale of the throttle. */
  lemma {:induction false} RateFits(x: int)
    ensures SCALE * (U32(x) / 1000) < WORD
  {
  }

  /** The rate over some time is what it seems to be if and only if the product fits 32 bits: 4294968 bytes a second over
      one second count as 0. */
  lemma {:induction false} RateExactly(rate: nat, elapsed: nat)
    ensures U32(rate * elapsed) / 1000 == rate * elapsed / 1000 <==> rate * elapsed < WORD
    ensures U32(4294968 * 1000) / 1000 == 0
  {
    var x := rate * elapsed;
    if x >= WORD { assert U32(x) <= x - WORD; }
  }

  lemma {:induction false} NoWrap(x: nat)
    requires x < WORD
    ensures U32(x) == x
  {
  }

  /** The products of a peer that gets too much fit 32 bits, and its limit is what the source computes. */
  lemma {:induction false} ProductsFit(p: Peer, now: nat, elapsed: nat, t: nat)
    requires TooMuch(p, now, elapsed, t) && t <= SCALE
    requires SCALE * p.outgoingDataTotal < WORD
    ensures var pb := PeerBandwidth(p, elapsed);
            && U32(p.incomingBandwidth * elapsed) / 1000 == pb < p.outgoingDataTotal
            && U32(pb * SCALE) / p.outgoingDataTotal == pb * SCALE / p.outgoingDataTotal
            && Limit(pb, p.outgoingDataTotal) == (var limit := pb * SCALE / p.outgoingDataTotal; if limit == 0 then 1 else limit)
  {
    hide Share;
    ShareAtMost(p, t);
    Times(PeerBandwidth(p, elapsed), p.outgoingDataTotal, SCALE);
    NoWrap(PeerBandwidth(p, elapsed) * SCALE);
  }

  /** The outgoing half leaves alone what the incoming half looks at. */
  lemma {:induction false} SettledPlaces(before: seq<Peer>, after: seq<Peer>, now: nat, elapsed: nat, t: nat)
    requires Settled(before, after, now, elapsed, t)
    requires forall p :: p in before && p.connected ==> p.incomingEpoch != now
    ensures Places(after, now) == Places(before, now) && forall p :: p in after && p.connected ==> p.incomingEpoch != now
  {
    hide Places, Limit, Share, PeerBandwidth, Limited;
    forall i | 0 <= i < |before|
      ensures after[i].connected == before[i].connected && after[i].incomingEpoch == before[i].incomingEpoch
    {
      assert SettledPeer(before[i], after[i], now, elapsed, t);
    }
    assert forall i :: 0 <= i < |before| ==> before[i] in before;
  }

  // The incoming loop.

  predicate Waiting(p: Peer, now: nat) { p.connected && p.incomingEpoch != now }

  predicate AtLimit(p: Peer, limit: nat) { p.outgoingBandwidth > 0 && p.outgoingBandwidth >= limit }

  function Places(peers: seq<Peer>, now: nat): (v: seq<nat>)
    ensures |v| == |peers| && forall i :: 0 <= i < |v| ==> v[i] == if Waiting(peers[i], now) then 1 else 0
  {
    if peers == [] then [] else [if Waiting(peers[0], now) then 1 else 0] + Places(peers[1..], now)
  }

  function Kept(peers: seq<Peer>, now: nat): (v: seq<nat>)
    ensures |v| == |peers|
    ensures forall i :: 0 <= i < |v| ==>
              v[i] == if peers[i].connected && !Waiting(peers[i], now) then peers[i].outgoingBandwidth else 0
  {
    if peers == [] then []
    else [if peers[0].connected && !Waiting(peers[0], now) then peers[0].outgoingBandwidth else 0] + Kept(peers[1..], now)
  }

  /** The smaller of a peer's own rate and the common limit. */
  function Grant(p: Peer, limit: nat): nat {
    if !p.connected || p.outgoingBandwidth == 0 then 0 else Least(p.outgoingBandwidth, limit)
  }

  /** What is left covers the limit for everybody still waiting; those fixed send less than the limit. */
  ghost predicate Filled(peers: seq<Peer>, now: nat, limit: nat, bandwidth: nat, remaining: nat, total: nat) {
    && remaining == Total(Places(peers, now)) && bandwidth + Total(Kept(peers, now)) == total
    && remaining * limit <= bandwidth
    && forall p :: p in peers && p.connected && !Waiting(p, now) ==> p.outgoingBandwidth == 0 || p.outgoingBandwidth < limit
  }

  /** The loop changes nothing but the epochs. */
  ghost predicate SameRates(before: seq<Peer>, after: seq<Peer>) {
    && |before| == |after|
    && forall i :: 0 <= i < |after| ==> after[i] == before[i].(incomingEpoch := after[i].incomingEpoch)
  }

  lemma {:induction false} RatesSame(peers: seq<Peer>)
    ensures SameRates(peers, peers)
  {
  }

  lemma {:induction false} RatesKept(before: seq<Peer>, peers: seq<Peer>, i: nat, now: nat)
    requires SameRates(before, peers) && i < |peers|
    ensures SameRates(before, peers[i := peers[i].(incomingEpoch := now)])
  {
  }

  lemma {:induction false} RatesChain(a: seq<Peer>, b: seq<Peer>, c: seq<Peer>)
    requires SameRates(a, b) && SameRates(b, c)
    ensures SameRates(a, c)
  {
  }

  lemma {:induction false} GrantKeeps(peers: seq<Peer>, k: nat, now: nat, limit: nat, bandwidth: nat, remaining: nat, total: nat)
    requires Filled(peers, now, limit, bandwidth, remaining, total) && k < |peers|
    requires Waiting(peers[k], now) && !AtLimit(peers[k], limit)
    ensures remaining > 0 && peers[k].outgoingBandwidth <= bandwidth
    ensures Filled(peers[k := peers[k].(incomingEpoch := now)], now, limit, bandwidth - peers[k].outgoingBandwidth, remaining - 1, total)
  {
    hide Total, Places, Kept;
    var after := peers[k := peers[k].(incomingEpoch := now)];
    assert Places(after, now) == Places(peers, now)[k := 0];
    assert Kept(after, now) == Kept(peers, now)[k := peers[k].outgoingBandwidth];
    TotalUpdate(Places(peers, now), k, 0);
    TotalUpdate(Kept(peers, now), k, peers[k].outgoingBandwidth);
    LessOne(remaining, limit);
    assert forall p :: p in after ==> p == after[k] || p in peers;
  }

  lemma {:induction false} LessOne(n: nat, limit: nat)
    requires n > 0
    ensures n * limit == (n - 1) * limit + limit
  {
  }

  lemma {:induction false} FillStarts(peers: seq<Peer>, now: nat, remaining: nat, total: nat)
    requires remaining == Total(Places(peers, now))
    requires forall p :: p in peers && p.connected ==> p.incomingEpoch != now
    ensures Filled(peers, now, 0, total, remaining, total)
  {
    hide Places;
    assert forall i :: 0 <= i < |peers| ==> peers[i] in peers;
    TotalOfNothing(Kept(peers, now));
    assert remaining * 0 == 0;
  }

  /** The limit only rises from pass to pass. */
  lemma {:induction false} FillRises(peers: seq<Peer>, now: nat, limit: nat, bandwidth: nat, remaining: nat, total: nat)
    requires Filled(peers, now, limit, bandwidth, remaining, total) && remaining > 0
    ensures bandwidth / remaining >= limit && Filled(peers, now, bandwidth / remaining, bandwidth, remaining, total)
  {
    hide Total, Places, Kept;
    QuotientAtLeast(bandwidth, remaining, limit);
    Euclid(bandwidth, remaining);
  }

  lemma {:induction false} QuotientAtLeast(x: nat, y: nat, z: nat)
    requires y > 0 && y * z <= x
    ensures x / y >= z
  {
    if x / y < z {
      Times(x / y + 1, z, y);
      Remains(x, y);
    }
  }

  lemma {:induction false} Remains(x: nat, y: nat)
    requires y > 0
    ensures x < (x / y + 1) * y
  {
  }

  lemma {:induction false} FillEnds(peers: seq<Peer>, now: nat, limit: nat, bandwidth: nat, remaining: nat, total: nat,
                                    needsAdjustment: bool, grants: seq<nat>)
    requires Filled(peers, now, limit, bandwidth, remaining, total) && |grants| == |peers|
    requires remaining == 0 || !needsAdjustment
    requires !needsAdjustment ==> forall j :: 0 <= j < |peers| && Waiting(peers[j], now) ==> AtLimit(peers[j], limit)
    requires forall i :: 0 <= i < |grants| ==>
               grants[i] == if !peers[i].connected then 0
                            else if peers[i].incomingEpoch == now then peers[i].outgoingBandwidth else limit
    ensures forall i :: 0 <= i < |grants| ==> grants[i] == Grant(peers[i], limit)
    ensures Total(grants) <= total
  {
    hide Total, Places, Kept;
    if remaining == 0 {
      forall j | 0 <= j < |peers| ensures !Waiting(peers[j], now) {
        TotalCovers(Places(peers, now), j);
      }
    }
    assert forall i :: 0 <= i < |peers| ==> peers[i] in peers;
    var shared := Scale(Places(peers, now), limit);
    TotalScale(Places(peers, now), limit);
    TotalSplits(Kept(peers, now), shared, grants);
  }

  /** The connected peers that can send at least the limit, and what the others can send. */
  function Above(peers: seq<Peer>, limit: nat): (v: seq<nat>)
    ensures |v| == |peers|
    ensures forall i :: 0 <= i < |v| ==>
              v[i] == if peers[i].connected && peers[i].outgoingBandwidth > 0 && peers[i].outgoingBandwidth >= limit then 1 else 0
  {
    if peers == [] then []
    else
      [if peers[0].connected && peers[0].outgoingBandwidth > 0 && peers[0].outgoingBandwidth >= limit then 1 else 0]
      + Above(peers[1..], limit)
  }

  function Under(peers: seq<Peer>, limit: nat): (v: seq<nat>)
    ensures |v| == |peers|
    ensures forall i :: 0 <= i < |v| ==>
              v[i] == if peers[i].connected && peers[i].outgoingBandwidth < limit then peers[i].outgoingBandwidth else 0
  {
    if peers == [] then []
    else
      [if peers[0].connected && peers[0].outgoingBandwidth < limit then peers[0].outgoingBandwidth else 0]
      + Under(peers[1..], limit)
  }

  /** The limit is the largest that fits: what slower peers send and the limit for each of the others is within the total,
      and a limit of one more would not be. */
  ghost predicate LargestLimit(peers: seq<Peer>, limit: nat, total: nat) {
    var n, slow := Total(Above(peers, limit)), Total(Under(peers, limit));
    n * limit + slow <= total && (n > 0 ==> total < n * (limit + 1) + slow)
  }

  lemma {:induction false} LimitIsLargest(peers: seq<Peer>, now: nat, limit: nat, bandwidth: nat, remaining: nat, total: nat,
                                          needsAdjustment: bool)
    requires Filled(peers, now, limit, bandwidth, remaining, total) && (remaining == 0 || !needsAdjustment)
    requires !needsAdjustment ==>
               && remaining > 0 && limit == bandwidth / remaining
               && forall j :: 0 <= j < |peers| && Waiting(peers[j], now) ==> AtLimit(peers[j], limit)
    ensures LargestLimit(peers, limit, total)
  {
    hide Total, Places, Kept;
    if remaining == 0 {
      forall j | 0 <= j < |peers| ensures !Waiting(peers[j], now) {
        TotalCovers(Places(peers, now), j);
      }
    } else {
      Remains(bandwidth, remaining);
    }
    assert forall i :: 0 <= i < |peers| ==> peers[i] in peers;
    assert Places(peers, now) == Above(peers, limit);
    assert Kept(peers, now) == Under(peers, limit);
  }

  function Scale(v: seq<nat>, limit: nat): (w: seq<nat>)
    ensures |w| == |v| && forall i :: 0 <= i < |w| ==> w[i] == if v[i] == 0 then 0 else v[i] * limit
  {
    if v == [] then [] else Scale(v[..|v| - 1], limit) + [if v[|v| - 1] == 0 then 0 else v[|v| - 1] * limit]
  }

  lemma {:induction false} TotalScale(v: seq<nat>, limit: nat)
    ensures Total(Scale(v, limit)) == Total(v) * limit
  {
    if v != [] {
      var n := |v| - 1;
      calc {
        Total(Scale(v, limit));
        { ScaleLast(v, limit); }
        Total(Scale(v[..n], limit)) + v[n] * limit;
        { TotalScale(v[..n], limit); }
        Total(v[..n]) * limit + v[n] * limit;
        { Factors(Total(v[..n]), v[n], limit); }
        (Total(v[..n]) + v[n]) * limit;
        Total(v) * limit;
      }
    }
  }

  lemma {:induction false} ScaleLast(v: seq<nat>, limit: nat)
    requires v != []
    ensures Total(Scale(v, limit)) == Total(Scale(v[..|v| - 1], limit)) + v[|v| - 1] * limit
  {
    var n := |v| - 1;
    assert Scale(v, limit)[..n] == Scale(v[..n], limit);
    assert v[n] == 0 ==> v[n] * limit == 0;
  }

  lemma {:induction false} Factors(a: nat, b: nat, limit: nat)
    ensures a * limit + b * limit == (a + b) * limit
  {
  }

  lemma {:induction false} NoneSummed(peers: seq<Peer>, now: nat)
    ensures Total(Data(peers, now)[..0]) == 0
  {
  }

  lemma {:induction false} OneSummed(peers: seq<Peer>, now: nat, i: nat)
    requires i < |peers| && Total(Data(peers, now)) < WORD
    ensures Total(Data(peers, now)[..i + 1]) == Total(Data(peers, now)[..i]) + Data(peers, now)[i] < WORD
  {
    var v := Data(peers, now);
    assert v[..i + 1][..i] == v[..i];
    PrefixTotal(v, i + 1);
  }

  lemma {:induction false} PrefixTotal(v: seq<nat>, n: nat)
    requires n <= |v|
    ensures Total(v[..n]) <= Total(v)
    decreases |v|
  {
    if n < |v| {
      PrefixTotal(v[..|v| - 1], n);
      assert v[..|v| - 1][..n] == v[..n];
    } else {
      assert v[..n] == v;
    }
  }

  /** The state between passes. When no adjustment is needed, no peer gets too much. */
  ghost predicate Round(before: seq<Peer>, peers: seq<Peer>, now: nat, elapsed: nat, dataTotal: nat, bandwidth: nat,
                        remaining: nat, needsAdjustment: bool, budget: nat) {
    && Follows(before, peers, now, elapsed) && InRange(before)
    && Total(Data(peers, now)) <= dataTotal && remaining == Total(Ones(peers, now))
    && bandwidth + Total(Fixed(peers, now, elapsed)) == budget
    && (!needsAdjustment ==>
          forall j :: 0 <= j < |peers| ==> !TooMuch(peers[j], now, elapsed, Throttle(dataTotal, bandwidth)))
  }

  lemma {:induction false} RoundStarts(peers: seq<Peer>, now: nat, elapsed: nat, dataTotal: nat, bandwidth: nat,
                                       remaining: nat, needsAdjustment: bool)
    requires InRange(peers) && remaining == Total(Ones(peers, now)) && Total(Data(peers, now)) <= dataTotal
    requires forall p :: p in peers && p.connected ==> p.outgoingEpoch != now
    requires !needsAdjustment ==> forall p :: p in peers && p.connected ==> p.incomingBandwidth == 0
    ensures Round(peers, peers, now, elapsed, dataTotal, bandwidth, remaining, needsAdjustment, bandwidth)
  {
    hide Data, Ones, Fixed;
    assert forall i :: 0 <= i < |peers| ==> peers[i] in peers;
    TotalOfNothing(Fixed(peers, now, elapsed));
  }

  lemma {:induction false} TotalOfNothing(v: seq<nat>)
    requires forall i :: 0 <= i < |v| ==> v[i] == 0
    ensures Total(v) == 0
  {
    if v != [] { TotalOfNothing(v[..|v| - 1]); }
  }

  lemma {:induction false} RoundLevels(before: seq<Peer>, peers: seq<Peer>, now: nat, elapsed: nat, dataTotal: nat,
                                       bandwidth: nat, remaining: nat, needsAdjustment: bool, budget: nat)
    requires Round(before, peers, now, elapsed, dataTotal, bandwidth, remaining, needsAdjustment, budget)
    ensures Level(peers, now, elapsed, Throttle(dataTotal, bandwidth), bandwidth, dataTotal, remaining, budget)
    ensures Follows(before, peers, now, elapsed) && InRange(before)
  {
    hide Total, Data, Shares, Throttle, Ones, Fixed;
    SharesFit(peers, now, dataTotal, bandwidth);
  }

  lemma {:induction false} RoundPassed(before: seq<Peer>, peers: seq<Peer>, now: nat, elapsed: nat, t: nat, d: nat, b: nat,
                                       dataTotal: nat, bandwidth: nat, remaining: nat, needsAdjustment: bool, budget: nat)
    requires Follows(before, peers, now, elapsed) && InRange(before) && t == Throttle(d, b)
    requires Level(peers, now, elapsed, t, bandwidth, dataTotal, remaining, budget)
    requires !needsAdjustment ==>
               && bandwidth == b && dataTotal == d && forall j :: 0 <= j < |peers| ==> !TooMuch(peers[j], now, elapsed, t)
    ensures Round(before, peers, now, elapsed, dataTotal, bandwidth, remaining, needsAdjustment, budget)
  {
    hide Total, Data, Shares, Throttle, Ones, Fixed, TooMuch;
  }

  /** What a peer may cost the host in a round like this one. A limit raised to 1 is not counted. */
  function Cost(before: Peer, after: Peer, now: nat, elapsed: nat): nat {
    if !before.connected then 0
    else if after.outgoingEpoch == now && PeerBandwidth(before, elapsed) * SCALE < before.outgoingDataTotal then 0
    else after.packetThrottleLimit * before.outgoingDataTotal / SCALE
  }

  function Costs(before: seq<Peer>, after: seq<Peer>, now: nat, elapsed: nat): (v: seq<nat>)
    requires |before| == |after|
    ensures |v| == |before| && forall i :: 0 <= i < |v| ==> v[i] == Cost(before[i], after[i], now, elapsed)
  {
    if before == [] then [] else [Cost(before[0], after[0], now, elapsed)] + Costs(before[1..], after[1..], now, elapsed)
  }

  /** Every connected peer is limited by its own bandwidth or gets the common throttle t and stays within its own. */
  ghost predicate Settled(before: seq<Peer>, after: seq<Peer>, now: nat, elapsed: nat, t: nat) {
    && |after| == |before|
    && forall i :: 0 <= i < |after| ==>
         SettledPeer(before[i], after[i], now, elapsed, t)
  }

  predicate SettledPeer(before: Peer, after: Peer, now: nat, elapsed: nat, t: nat) {
    if !before.connected then after == before
    else
      || (Limited(before, now, elapsed) && after == Closed(before, now, elapsed))
      || (after == Shared(before, t)
          && (before.incomingBandwidth != 0 ==> Share(before, t) <= PeerBandwidth(before, elapsed)))
  }

  lemma {:induction false} NobodyOpen(peers: seq<Peer>, now: nat)
    requires Total(Ones(peers, now)) == 0
    ensures forall j :: 0 <= j < |peers| ==> !Open(peers[j], now)
  {
    forall j | 0 <= j < |peers| ensures !Open(peers[j], now) {
      TotalCovers(Ones(peers, now), j);
    }
  }

  /** The whole round: everybody is settled, and what they may send stays within the budget. */
  lemma {:induction false} RoundEnds(before: seq<Peer>, mid: seq<Peer>, after: seq<Peer>, now: nat, elapsed: nat, dataTotal: nat,
                                     bandwidth: nat, remaining: nat, needsAdjustment: bool, budget: nat)
    requires Round(before, mid, now, elapsed, dataTotal, bandwidth, remaining, needsAdjustment, budget)
    requires remaining == 0 || !needsAdjustment
    requires forall p :: p in before && p.connected ==> p.outgoingEpoch != now
    requires |after| == |mid| && forall j :: 0 <= j < |mid| ==>
               after[j] == if Open(mid[j], now) then Shared(mid[j], Throttle(dataTotal, bandwidth)) else mid[j]
    ensures Settled(before, after, now, elapsed, Throttle(dataTotal, bandwidth))
    ensures Total(Costs(before, after, now, elapsed)) <= budget
  {
    hide Total, Data, Ones, Throttle, Limit;
    var t := Throttle(dataTotal, bandwidth);
    if remaining == 0 { NobodyOpen(mid, now); }
    assert forall i :: 0 <= i < |before| ==> before[i] in before;
    forall i | 0 <= i < |after| ensures SettledPeer(before[i], after[i], now, elapsed, t) {
      PeerSettles(before[i], mid[i], after[i], now, elapsed, t);
    }
    CostsFit(before, mid, after, now, elapsed, dataTotal, bandwidth, budget);
  }

  lemma {:induction false} PeerSettles(before: Peer, mid: Peer, after: Peer, now: nat, elapsed: nat, t: nat)
    requires before.connected ==> before.outgoingEpoch != now
    requires mid == before || (Limited(before, now, elapsed) && mid == Closed(before, now, elapsed))
    requires after == if Open(mid, now) then Shared(mid, t) else mid
    requires !TooMuch(mid, now, elapsed, t) || !Open(mid, now)
    ensures SettledPeer(before, after, now, elapsed, t)
  {
    hide Share, PeerBandwidth, Limit;
  }

  lemma {:induction false} CostsFit(before: seq<Peer>, mid: seq<Peer>, after: seq<Peer>, now: nat, elapsed: nat, dataTotal: nat,
                                    bandwidth: nat, budget: nat)
    requires Follows(before, mid, now, elapsed) && Total(Data(mid, now)) <= dataTotal
    requires bandwidth + Total(Fixed(mid, now, elapsed)) == budget
    requires forall i :: 0 <= i < |before| && before[i].connected ==> before[i].outgoingEpoch != now
    requires |after| == |mid| && forall j :: 0 <= j < |mid| ==>
               after[j] == if Open(mid[j], now) then Shared(mid[j], Throttle(dataTotal, bandwidth)) else mid[j]
    ensures Total(Costs(before, after, now, elapsed)) <= budget
  {
    hide Total, Data, Throttle, Limit;
    var t := Throttle(dataTotal, bandwidth);
    SharesFit(mid, now, dataTotal, bandwidth);
    var fixed, shares := Fixed(mid, now, elapsed), Shares(mid, now, t);
    var both := Sums(fixed, shares);
    TotalSplits(fixed, shares, both);
    forall i | 0 <= i < |before| ensures Costs(before, after, now, elapsed)[i] <= both[i] {
      CostFits(before[i], mid[i], after[i], now, elapsed, t);
    }
    TotalBelow(Costs(before, after, now, elapsed), both);
  }

  function Sums(a: seq<nat>, b: seq<nat>): (v: seq<nat>)
    requires |a| == |b|
    ensures |v| == |a| && forall i :: 0 <= i < |v| ==> v[i] == a[i] + b[i]
  {
    if a == [] then [] else [a[0] + b[0]] + Sums(a[1..], b[1..])
  }

  lemma {:induction false} CostFits(before: Peer, mid: Peer, after: Peer, now: nat, elapsed: nat, t: nat)
    requires before.connected ==> before.outgoingEpoch != now
    requires mid == before || (Limited(before, now, elapsed) && mid == Closed(before, now, elapsed))
    requires after == if Open(mid, now) then Shared(mid, t) else mid
    ensures Cost(before, after, now, elapsed) <=
            (if mid.connected && !Open(mid, now) then PeerBandwidth(mid, elapsed) else 0)
            + (if Open(mid, now) then Share(mid, t) else 0)
  {
    if mid != before && before.connected && PeerBandwidth(before, elapsed) * SCALE >= before.outgoingDataTotal {
      LimitFits(PeerBandwidth(before, elapsed), before.outgoingDataTotal);
    }
  }

  lemma {:induction false} LimitFits(bandwidth: nat, data: nat)
    requires data > 0 && bandwidth * SCALE >= data
    ensures Limit(bandwidth, data) * data / SCALE <= bandwidth
  {
    Euclid(bandwidth * SCALE, data);
  }

  // What the limits come to, in the numbers of the source.

  /** What a peer may be sent by its own rate in the time that has passed. */
  function OwnRate(p: Peer, elapsed: nat): nat { p.incomingBandwidth * elapsed % 0x1_0000_0000 / 1000 }

  /** The own rates of the peers that are limited by them. */
  function OwnRates(before: seq<Peer>, after: seq<Peer>, now: nat, elapsed: nat): (v: seq<nat>)
    requires |before| == |after|
    ensures |v| == |before|
    ensures forall i :: 0 <= i < |v| ==>
              v[i] == if before[i].connected && after[i].outgoingEpoch == now then OwnRate(before[i], elapsed) else 0
  {
    if before == [] then []
    else
      [if before[0].connected && after[0].outgoingEpoch == now then OwnRate(before[0], elapsed) else 0]
      + OwnRates(before[1..], after[1..], now, elapsed)
  }

  function AllData(peers: seq<Peer>): (v: seq<nat>)
    ensures |v| == |peers|
    ensures forall i :: 0 <= i < |v| ==> v[i] == if peers[i].connected then peers[i].outgoingDataTotal else 0
  {
    if peers == [] then [] else [if peers[0].connected then peers[0].outgoingDataTotal else 0] + AllData(peers[1..])
  }

  /** The common throttle is the largest that fits: t/32 of all data fits the host's rate, both without what is promised to
      the peers limited by their own rates, and (t + 1)/32 does not. */
  ghost predicate Best(before: seq<Peer>, after: seq<Peer>, now: nat, elapsed: nat, t: nat, rate: nat)
    requires |before| == |after|
  {
    var data, budget, own := Total(AllData(before)), rate * elapsed % 0x1_0000_0000 / 1000, Total(OwnRates(before, after, now, elapsed));
    if rate == 0 || data <= budget then t == 32
    else own <= budget && t * (data - own) <= 32 * (budget - own) < (t + 1) * (data - own)
  }

  /** A peer limited by its own rate gets the largest throttle that keeps it within, but at least 1; any other gets t. The
      totals start anew, and the throttle is cut to the limit. */
  predicate LimitIsBest(before: Peer, after: Peer, now: nat, elapsed: nat, t: nat) {
    if !before.connected then after == before
    else
      var limit, data, own := after.packetThrottleLimit, before.outgoingDataTotal, OwnRate(before, elapsed);
      && after.outgoingDataTotal == 0 && after.incomingDataTotal == 0
      && after.packetThrottle == (if before.packetThrottle > limit then limit else before.packetThrottle)
      && if after.outgoingEpoch == now then
           && before.incomingBandwidth != 0 && own < data
           && limit >= 1 && 32 * own < (limit + 1) * data && (limit == 1 || limit * data <= 32 * own)
         else limit == t && (before.incomingBandwidth != 0 ==> t * data / 32 <= own)
  }

  lemma {:induction false} RatesAgree(p: Peer, elapsed: nat)
    ensures PeerBandwidth(p, elapsed) == OwnRate(p, elapsed)
  {
  }

  lemma {:induction false} ThrottleExactly(data: nat, bandwidth: nat)
    ensures var t := Throttle(data, bandwidth);
            if data <= bandwidth then t == 32 else t * data <= 32 * bandwidth < (t + 1) * data
  {
    if data > bandwidth {
      Euclid(bandwidth * SCALE, data);
      Remains(bandwidth * SCALE, data);
    }
  }

  lemma {:induction false} LimitsAreBest(before: seq<Peer>, after: seq<Peer>, now: nat, elapsed: nat, t: nat)
    requires Settled(before, after, now, elapsed, t)
    requires forall p :: p in before && p.connected ==> p.outgoingEpoch != now
    ensures |after| == |before| && forall i :: 0 <= i < |after| ==> LimitIsBest(before[i], after[i], now, elapsed, t)
  {
    hide SettledPeer, LimitIsBest;
    forall i | 0 <= i < |after| ensures LimitIsBest(before[i], after[i], now, elapsed, t) {
      assert before[i] in before;
      OneLimitIsBest(before[i], after[i], now, elapsed, t);
    }
  }

  lemma {:induction false} OneLimitIsBest(before: Peer, after: Peer, now: nat, elapsed: nat, t: nat)
    requires SettledPeer(before, after, now, elapsed, t) && (before.connected ==> before.outgoingEpoch != now)
    ensures LimitIsBest(before, after, now, elapsed, t)
  {
    hide PeerBandwidth, OwnRate;
    RatesAgree(before, elapsed);
    var data := before.outgoingDataTotal;
    if data > 0 {
      Euclid(OwnRate(before, elapsed) * SCALE, data);
      Remains(OwnRate(before, elapsed) * SCALE, data);
    }
  }

  lemma {:induction false} WholeIs(before: seq<Peer>, now: nat, rate: nat, elapsed: nat)
    requires forall p :: p in before && p.connected ==> p.outgoingEpoch != now
    ensures Total(AllData(before)) == Total(Data(before, now))
    ensures U32(rate * elapsed) / 1000 == rate * elapsed % 0x1_0000_0000 / 1000
  {
    hide Total;
    assert forall i :: 0 <= i < |before| ==> before[i] in before;
    assert AllData(before) == Data(before, now);
  }

  lemma {:induction false} RoundIsBest(before: seq<Peer>, mid: seq<Peer>, after: seq<Peer>, now: nat, elapsed: nat, dataTotal: nat,
                                       bandwidth: nat, remaining: nat, needsAdjustment: bool, budget: nat, whole: nat, rate: nat)
    requires Round(before, mid, now, elapsed, dataTotal, bandwidth, remaining, needsAdjustment, budget)
    requires forall p :: p in before && p.connected ==> p.outgoingEpoch != now
    requires |after| == |mid| && forall j :: 0 <= j < |mid| ==>
               after[j] == if Open(mid[j], now) then Shared(mid[j], Throttle(dataTotal, bandwidth)) else mid[j]
    requires dataTotal + budget == whole + bandwidth
    requires if rate == 0 then whole == budget
             else budget == rate * elapsed % 0x1_0000_0000 / 1000 && whole == Total(AllData(before))
    ensures Best(before, after, now, elapsed, Throttle(dataTotal, bandwidth), rate)
  {
    hide Total, Data, Ones, Throttle, Limit, TooMuch, InRange;
    ThrottleExactly(dataTotal, bandwidth);
    assert Fixed(mid, now, elapsed) == OwnRates(before, after, now, elapsed) by {
      forall i | 0 <= i < |mid| ensures Fixed(mid, now, elapsed)[i] == OwnRates(before, after, now, elapsed)[i] {
        assert before[i] in before;
        RatesAgree(before[i], elapsed);
      }
    }
  }

  /** An open peer is as it was, so its share fits 32 bits. */
  lemma {:induction false} OpenInRange(before: seq<Peer>, peers: seq<Peer>, now: nat, elapsed: nat, i: nat, t: nat)
    requires i < |peers| && Follows(before, peers, now, elapsed) && InRange(before) && t <= SCALE
    requires Open(peers[i], now)
    ensures peers[i] == before[i]
    ensures t * peers[i].outgoingDataTotal < WORD && SCALE * peers[i].outgoingDataTotal < WORD
  {
    Times(t, SCALE, peers[i].outgoingDataTotal);
  }
}
