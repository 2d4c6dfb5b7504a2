/** One pod's leadership leases: its lease map, every entry it ever made and each entry's heartbeat,
    as a state machine whose steps are the locked regions and the heartbeat ticks. */
module Leases {
  import opened StreamIds

  /** The heartbeat goroutine of an entry. `FailedAtStart` returned after its initial renewal,
      `Stopped` saw the stop channel, `Lost` gave leadership up. */
  datatype Heartbeat = Starting | Ticking(failures: nat) | FailedAtStart | Stopped | Lost

  /** A lease entry: how often its stop channel was closed and its lost callback started. */
  datatype Entry = Entry(stream: StreamId, closes: nat, callback: bool, notified: nat, heartbeat: Heartbeat)

  /** `leases` maps a stream to the index of its entry in `entries`, the record of all entries. */
  datatype Pod = Pod(leases: map<StreamId, nat>, entries: seq<Entry>, lastPeerCount: int, stableAt: int)

  const FAILURE_THRESHOLD: nat := 2

  function NewPod(): Pod { Pod(map[], [], 0, 0) }

  predicate Current(p: Pod, i: nat)
    requires i < |p.entries|
  {
    var stream := p.entries[i].stream;
    stream in p.leases && p.leases[stream] == i
  }

  /** EnsureLeadership finding the stream leased: only the callback may change. */
  function Refreshed(p: Pod, stream: StreamId, callback: bool): Pod {
    if stream in p.leases && p.leases[stream] < |p.entries| && callback then
      var i := p.leases[stream];
      p.(entries := p.entries[i := p.entries[i].(callback := true)])
    else p
  }

  /** EnsureLeadership after a granted claim: a new entry, with a new heartbeat, takes the stream. */
  function Claimed(p: Pod, stream: StreamId, callback: bool): Pod {
    p.(leases := p.leases[stream := |p.entries|],
       entries := p.entries + [Entry(stream, 0, callback, 0, Starting)])
  }

  /** Closes the channels of the leases on `streams` and deletes them. */
  function Shed(p: Pod, streams: set<StreamId>): (q: Pod)
    ensures q.leases == p.leases - streams
    ensures |q.entries| == |p.entries|
    ensures forall i :: 0 <= i < |p.entries| ==>
              q.entries[i] == if Current(p, i) && p.entries[i].stream in streams
                              then p.entries[i].(closes := p.entries[i].closes + 1) else p.entries[i]
  {
    p.(leases := p.leases - streams,
       entries := seq(|p.entries|, i requires 0 <= i < |p.entries| =>
         if Current(p, i) && p.entries[i].stream in streams
         then p.entries[i].(closes := p.entries[i].closes + 1) else p.entries[i]))
  }

  // ceil(total / peers)
  function Cap(total: nat, peers: nat): nat
    requires 0 < peers
  {
    (total + peers - 1) / peers
  }

  function Observed(peerCount: int): nat
    ensures 0 < Observed(peerCount)
  {
    if peerCount <= 0 then 1 else peerCount
  }

  /** What one Rebalance leaves of (lastPeerCount, stableAt), and whether it may go on to shed. */
  function Gate(lastPeerCount: int, stableAt: int, now: int, period: int, peers: nat): (int, int, bool) {
    if period <= 0 then (lastPeerCount, stableAt, true)
    else if lastPeerCount != peers then (peers, now + period, false)
    else (lastPeerCount, stableAt, stableAt <= now)
  }

  ghost function Rebalanced(p: Pod, now: int, period: int, peerCount: int, total: nat): (Pod, set<StreamId>) {
    var peers := Observed(peerCount);
    var (last, stableAt, pass) := Gate(p.lastPeerCount, p.stableAt, now, period, peers);
    var q := p.(lastPeerCount := last, stableAt := stableAt);
    if pass then ShedAbove(q, Cap(total, peers)) else (q, {})
  }

  /** Sheds the alphabetically last leases above `keep`. */
  ghost function ShedAbove(p: Pod, keep: nat): (Pod, set<StreamId>) {
    if |p.leases| <= keep then (p, {})
    else
      var released := LastAfter(p.leases.Keys, keep);
      (Shed(p, released), released)
  }

  /** What one renewal, at the start or on a tick, makes of a heartbeat. */
  function Beat(heartbeat: Heartbeat, ok: bool): Heartbeat {
    match heartbeat
    case Starting => if ok then Ticking(0) else FailedAtStart
    case Ticking(failures) =>
      if ok then Ticking(0) else if failures + 1 < FAILURE_THRESHOLD then Ticking(failures + 1) else Lost
    case _ => heartbeat
  }

  /** One renewal by the heartbeat of entry i. Giving up deletes the lease only if it is still this
      entry's own, and starts the lost callback. */
  function Renewed(p: Pod, i: nat, ok: bool): Pod
    requires i < |p.entries|
  {
    var e := p.entries[i];
    var heartbeat := Beat(e.heartbeat, ok);
    if heartbeat.Lost? && !e.heartbeat.Lost? then GivenUp(p, i)
    else p.(entries := p.entries[i := e.(heartbeat := heartbeat)])
  }

  function GivenUp(p: Pod, i: nat): Pod
    requires i < |p.entries|
  {
    var e := p.entries[i];
    p.(leases := if Current(p, i) then p.leases - {e.stream} else p.leases,
       entries := p.entries[i := e.(heartbeat := Lost,
                                    notified := if e.callback then e.notified + 1 else e.notified)])
  }

  datatype Event =
    | Refresh(stream: StreamId, callback: bool)
    | Claim(stream: StreamId, callback: bool)
    | Release(stream: StreamId)
    | StopAll
    | Rebalance(now: int, peerCount: int, total: nat)
    | Renew(entry: nat, ok: bool)
    | SeeStop(entry: nat)      // the select of a ticking heartbeat takes the closed channel

  ghost function Next(p: Pod, period: int, e: Event): Pod {
    match e
    case Refresh(stream, callback) => Refreshed(p, stream, callback)
    case Claim(stream, callback) => Claimed(p, stream, callback)
    case Release(stream) => Shed(p, {stream})
    case StopAll => Shed(p, p.leases.Keys)
    case Rebalance(now, peerCount, total) => Rebalanced(p, now, period, peerCount, total).0
    case Renew(i, ok) => if i < |p.entries| then Renewed(p, i, ok) else p
    case SeeStop(i) =>
      if i < |p.entries| && p.entries[i].heartbeat.Ticking? && 0 < p.entries[i].closes then
        p.(entries := p.entries[i := p.entries[i].(heartbeat := Stopped)])
      else p
  }

  ghost function Run(p: Pod, period: int, events: seq<Event>): Pod
    decreases |events|
  {
    if events == [] then p else Run(Next(p, period, events[0]), period, events[1..])
  }

  /** Peers times the cap covers every stream, and no smaller cap would do. */
  lemma CapsCoverAllStreams(total: nat, peers: nat)
    requires 0 < peers
    ensures total <= peers * Cap(total, peers)
    ensures 0 < total ==> peers * (Cap(total, peers) - 1) < total
  {
  }

  /** A pod's share of the streams: as many as it takes for that many peers, of which there is at least one, to
      cover them all, and no more. */
  predicate FairShare(keep: nat, peerCount: int, total: nat) {
    var n := if peerCount <= 0 then 1 else peerCount;
    total <= keep * n && (if total == 0 then keep == 0 else (keep - 1) * n < total)
  }

  lemma CapIsFairShare(peerCount: int, total: nat, keep: nat)
    ensures FairShare(keep, peerCount, total) <==> keep == Cap(total, Observed(peerCount))
  {
    var n, cap := Observed(peerCount), Cap(total, Observed(peerCount));
    CapsCoverAllStreams(total, n);
    if FairShare(keep, peerCount, total) && 0 < total {
      if keep < cap {
        Scaled(keep, cap - 1, n);
      } else if cap < keep {
        Scaled(cap, keep - 1, n);
      }
    }
  }

  lemma Scaled(a: int, b: int, n: nat)
    requires a <= b
    ensures a * n <= b * n
  {
  }

  lemma SizeWithout(leases: map<StreamId, nat>, streams: set<StreamId>)
    requires streams <= leases.Keys
    ensures |leases - streams| == |leases| - |streams|
  {
    var rest := leases - streams;
    assert |leases| == |leases.Keys| && |rest| == |rest.Keys|;
    assert leases.Keys == rest.Keys + streams && rest.Keys !! streams;
  }

  lemma ShedAboveReleasesTheLast(p: Pod, keep: nat)
    requires keep < |p.leases|
    ensures var (q, released) := ShedAbove(p, keep);
            q.leases == p.leases - released && AreLast(released, p.leases.Keys, keep) && |q.leases| == keep
  {
    assert |p.leases| == |p.leases.Keys|;
    var last := LastAfter(p.leases.Keys, keep);
    LastAfterIsLast(last, p.leases.Keys, keep);
    SizeWithout(p.leases, last);
  }

  lemma RebalancedIs(p: Pod, now: int, period: int, peerCount: int, total: nat)
    ensures var (q, released) := Rebalanced(p, now, period, peerCount, total);
            var peers := Observed(peerCount);
            var keep := Cap(total, peers);
            && q.leases == p.leases - released
            && if Gate(p.lastPeerCount, p.stableAt, now, period, peers).2 && keep < |p.leases|
               then AreLast(released, p.leases.Keys, keep) && released != {} && |q.leases| == keep
               else released == {} && q.leases == p.leases && q.entries == p.entries
  {
    var peers := Observed(peerCount);
    var keep := Cap(total, peers);
    var (last, stableAt, pass) := Gate(p.lastPeerCount, p.stableAt, now, period, peers);
    if pass && keep < |p.leases| {
      ShedAboveReleasesTheLast(p.(lastPeerCount := last, stableAt := stableAt), keep);
      assert |p.leases| == |p.leases.Keys|;
    }
  }

  /** There is no stabilization period, or the count is the one last seen and its period is over. */
  predicate Settled(lastPeerCount: int, stableAt: int, now: int, period: int, peerCount: int) {
    period <= 0 || (lastPeerCount == (if peerCount <= 0 then 1 else peerCount) && stableAt <= now)
  }

  /** A rebalance at a settled peer count leaves at most the fair share, and what it releases is exactly the
      alphabetically last leases; any other releases nothing. Only a new count, with a period to wait for, moves the
      gate: from then on the period starts over. */
  lemma RebalanceReleasesTheLast(p: Pod, now: int, period: int, peerCount: int, total: nat, keep: nat)
    requires FairShare(keep, peerCount, total)
    ensures var (q, released) := Rebalanced(p, now, period, peerCount, total);
            var n := if peerCount <= 0 then 1 else peerCount;
            && q.leases == p.leases - released
            && (if Settled(p.lastPeerCount, p.stableAt, now, period, peerCount) && keep < |p.leases|
                then AreLast(released, p.leases.Keys, keep) && released != {} && |q.leases| == keep
                else released == {} && q.leases == p.leases && q.entries == p.entries)
            && (q.lastPeerCount, q.stableAt)
               == if period <= 0 || p.lastPeerCount == n then (p.lastPeerCount, p.stableAt) else (n, now + period)
  {
    CapIsFairShare(peerCount, total, keep);
    RebalancedIs(p, now, period, peerCount, total);
  }

  /** What a rebalance releases depends on no more of the leases than their ids. */
  lemma ReleaseDependsOnIds(p: Pod, other: Pod, now: int, period: int, peerCount: int, total: nat)
    requires other.leases.Keys == p.leases.Keys
    requires other.lastPeerCount == p.lastPeerCount && other.stableAt == p.stableAt
    ensures Rebalanced(p, now, period, peerCount, total).1 == Rebalanced(other, now, period, peerCount, total).1
  {
    assert |other.leases| == |other.leases.Keys| && |p.leases| == |p.leases.Keys|;
  }

  /** The peer counts Rebalance has seen, with the times it saw them. */
  datatype Observation = Observation(at: int, peerCount: int)

  function GateAfter(seen: seq<Observation>, period: int): (int, int) {
    if seen == [] then (0, 0)
    else
      var (last, stableAt) := GateAfter(seen[..|seen| - 1], period);
      var o := seen[|seen| - 1];
      var g := Gate(last, stableAt, o.at, period, Observed(o.peerCount));
      (g.0, g.1)
  }

  predicate InTimeOrder(seen: seq<Observation>) {
    forall i, j :: 0 <= i < j < |seen| ==> seen[i].at <= seen[j].at
  }

  /** No peers, or fewer, count as one. */
  predicate SameCount(a: Observation, b: Observation) {
    a.peerCount == b.peerCount || (a.peerCount <= 1 && b.peerCount <= 1)
  }

  /** From observation `since` on, and not before, every count was the last one, and the gate opens a period
      after it. */
  lemma {:induction false} CountSince(seen: seq<Observation>, period: int) returns (since: nat)
    requires 0 < period && InTimeOrder(seen) && seen != []
    ensures since < |seen|
    ensures GateAfter(seen, period) == (Observed(seen[|seen| - 1].peerCount), seen[since].at + period)
    ensures forall i :: since <= i < |seen| ==> SameCount(seen[i], seen[|seen| - 1])
    ensures since == 0 || !SameCount(seen[since - 1], seen[|seen| - 1])
    decreases |seen|
  {
    var before, o := seen[..|seen| - 1], seen[|seen| - 1];
    since := |seen| - 1;
    if before != [] {
      var earlier := CountSince(before, period);
      if GateAfter(before, period).0 == Observed(o.peerCount) {
        since := earlier;
      }
    }
  }

  /** Observation k was made a period ago, and from it on every count was the present one. */
  ghost predicate StableFrom(seen: seq<Observation>, k: nat, period: int, now: Observation)
    requires k < |seen|
  {
    seen[k].at <= now.at - period && forall i :: k <= i < |seen| ==> SameCount(seen[i], now)
  }

  ghost predicate Stable(seen: seq<Observation>, period: int, now: Observation) {
    exists k :: 0 <= k < |seen| && StableFrom(seen, k, period, now)
  }

  /** With a positive period the gate lets a rebalance through exactly if one and the same peer count has been
      observed for at least the period. */
  lemma GateOpensIffStable(seen: seq<Observation>, period: int, now: Observation)
    requires 0 < period && InTimeOrder(seen + [now])
    ensures var (last, stableAt) := GateAfter(seen, period);
            Gate(last, stableAt, now.at, period, Observed(now.peerCount)).2 <==> Stable(seen, period, now)
  {
    assert InTimeOrder(seen) by {
      assert forall i :: 0 <= i < |seen| ==> seen[i] == (seen + [now])[i];
    }
    if seen != [] {
      var since := CountSince(seen, period);
      var (last, stableAt) := GateAfter(seen, period);
      if Gate(last, stableAt, now.at, period, Observed(now.peerCount)).2 {
        assert StableFrom(seen, since, period, now);
      }
      if k :| 0 <= k < |seen| && StableFrom(seen, k, period, now) {
        assert SameCount(seen[|seen| - 1], now);
        assert since <= k;
      }
    }
  }

  /** Within the period before an open gate no other count was observed. */
  lemma StableForThePeriod(seen: seq<Observation>, period: int, now: Observation, o: Observation)
    requires InTimeOrder(seen + [now]) && Stable(seen, period, now)
    requires o in seen && now.at - period < o.at
    ensures SameCount(o, now)
  {
    var k :| 0 <= k < |seen| && StableFrom(seen, k, period, now);
    var i :| 0 <= i < |seen| && seen[i] == o;
    assert seen[i] == (seen + [now])[i] && seen[k] == (seen + [now])[k];
  }

  ghost predicate EntryOk(p: Pod, i: nat)
    requires i < |p.entries|
  {
    var e := p.entries[i];
    && e.closes <= 1
    && (Current(p, i) ==> e.closes == 0 && !e.heartbeat.Stopped? && !e.heartbeat.Lost?)
    && (e.heartbeat.Ticking? ==> e.heartbeat.failures < FAILURE_THRESHOLD)
    && e.notified == (if e.heartbeat.Lost? && e.callback then 1 else 0)
  }

  /** Every lease's channel is open, no channel was closed twice, a callback has been started exactly once if its
      entry is lost and else not at all, and a leased entry whose heartbeat is gone can only have failed its initial
      renewal. */
  ghost predicate Inv(p: Pod) {
    && (forall s :: s in p.leases ==> p.leases[s] < |p.entries| && p.entries[p.leases[s]].stream == s)
    && (forall i :: 0 <= i < |p.entries| ==> EntryOk(p, i))
  }

  lemma ShedKeepsInv(p: Pod, streams: set<StreamId>)
    requires Inv(p)
    ensures Inv(Shed(p, streams))
  {
    var q := Shed(p, streams);
    forall i | 0 <= i < |q.entries| ensures EntryOk(q, i) {
      assert EntryOk(p, i);
    }
  }

  /** Shedding streams that have no lease changes nothing. */
  lemma ShedNone(p: Pod, streams: set<StreamId>)
    ensures Shed(p, {}) == p
    ensures streams !! p.leases.Keys ==> Shed(p, streams) == p
  {
  }

  lemma ShedOne(p: Pod, stream: StreamId)
    requires stream in p.leases && p.leases[stream] < |p.entries|
    requires p.entries[p.leases[stream]].stream == stream && p.entries[p.leases[stream]].closes == 0
    ensures var i := p.leases[stream];
            Shed(p, {stream}) == p.(leases := p.leases - {stream},
                                    entries := p.entries[i := p.entries[i].(closes := 1)])
  {
  }

  /** Shedding disjoint sets one after the other is shedding their union. */
  lemma ShedTwice(p: Pod, first: set<StreamId>, second: set<StreamId>)
    requires first !! second
    ensures Shed(Shed(p, first), second) == Shed(p, first + second)
  {
  }

  lemma RenewedKeepsInv(p: Pod, i: nat, ok: bool)
    requires Inv(p) && i < |p.entries|
    ensures Inv(Renewed(p, i, ok))
  {
    var q := Renewed(p, i, ok);
    forall j | 0 <= j < |q.entries| ensures EntryOk(q, j) {
      assert EntryOk(p, j);
    }
  }

  lemma ClaimedKeepsInv(p: Pod, stream: StreamId, callback: bool)
    requires Inv(p)
    ensures Inv(Claimed(p, stream, callback)) && Inv(Refreshed(p, stream, callback))
  {
    var q, r := Claimed(p, stream, callback), Refreshed(p, stream, callback);
    forall j | 0 <= j < |p.entries| ensures EntryOk(q, j) && EntryOk(r, j) {
      assert EntryOk(p, j);
    }
  }

  lemma GatedKeepsInv(p: Pod, lastPeerCount: int, stableAt: int)
    requires Inv(p)
    ensures Inv(p.(lastPeerCount := lastPeerCount, stableAt := stableAt))
  {
    var q := p.(lastPeerCount := lastPeerCount, stableAt := stableAt);
    forall j | 0 <= j < |q.entries| ensures EntryOk(q, j) {
      assert EntryOk(p, j);
    }
  }

  lemma StopKeepsInv(p: Pod, i: nat)
    requires Inv(p) && i < |p.entries| && p.entries[i].heartbeat.Ticking? && 0 < p.entries[i].closes
    ensures Inv(p.(entries := p.entries[i := p.entries[i].(heartbeat := Stopped)]))
  {
    var q := p.(entries := p.entries[i := p.entries[i].(heartbeat := Stopped)]);
    forall j | 0 <= j < |q.entries| ensures EntryOk(q, j) {
      assert EntryOk(p, j);
    }
  }

  lemma StepKeepsInv(p: Pod, period: int, e: Event)
    requires Inv(p)
    ensures Inv(Next(p, period, e))
  {
    match e {
      case Refresh(stream, callback) => ClaimedKeepsInv(p, stream, callback);
      case Claim(stream, callback) => ClaimedKeepsInv(p, stream, callback);
      case Release(stream) => ShedKeepsInv(p, {stream});
      case StopAll => ShedKeepsInv(p, p.leases.Keys);
      case Rebalance(now, peerCount, total) =>
        var (last, stableAt, pass) := Gate(p.lastPeerCount, p.stableAt, now, period, Observed(peerCount));
        GatedKeepsInv(p, last, stableAt);
        ShedKeepsInv(p.(lastPeerCount := last, stableAt := stableAt),
                     Rebalanced(p, now, period, peerCount, total).1);
      case Renew(i, ok) => if i < |p.entries| { RenewedKeepsInv(p, i, ok); }
      case SeeStop(i) =>
        if i < |p.entries| && p.entries[i].heartbeat.Ticking? && 0 < p.entries[i].closes {
          StopKeepsInv(p, i);
        }
    }
  }

  /** Over every interleaving of claims, refreshes, releases, stops, rebalances and heartbeats. */
  lemma {:induction false} EveryRunKeepsInv(p: Pod, period: int, events: seq<Event>)
    requires Inv(p)
    ensures Inv(Run(p, period, events))
    decreases |events|
  {
    if events != [] {
      StepKeepsInv(p, period, events[0]);
      EveryRunKeepsInv(Next(p, period, events[0]), period, events[1..]);
    }
  }

  /** A renewal, whatever its outcome, leaves every other entry alone and can delete from the lease map
      only the lease of its own entry: a successor's lease on the same stream survives. */
  lemma RenewalTouchesOnlyItsOwn(p: Pod, i: nat, ok: bool)
    requires Inv(p) && i < |p.entries|
    ensures var q := Renewed(p, i, ok);
            && (forall j :: 0 <= j < |p.entries| && j != i ==> q.entries[j] == p.entries[j])
            && (forall s :: s in p.leases && p.leases[s] != i ==> s in q.leases && q.leases[s] == p.leases[s])
            && q.leases.Keys <= p.leases.Keys
  {
  }

  // ---------- orphans ----------

  /** The heartbeat goroutine is still running. */
  predicate Live(heartbeat: Heartbeat) { heartbeat.Starting? || heartbeat.Ticking? }

  /** A running heartbeat that is neither leased nor told to stop: nothing but its own failures ends it. */
  predicate Orphan(p: Pod, i: nat)
    requires i < |p.entries|
  {
    !Current(p, i) && p.entries[i].closes == 0 && Live(p.entries[i].heartbeat)
  }

  ghost predicate NoOrphans(p: Pod) {
    forall i :: 0 <= i < |p.entries| ==> !Orphan(p, i)
  }

  /** Every running heartbeat has been told to stop. */
  ghost predicate AllTold(p: Pod) {
    forall i :: 0 <= i < |p.entries| && Live(p.entries[i].heartbeat) ==> p.entries[i].closes == 1
  }

  /** Stopping everything tells every running heartbeat to stop exactly if there are no orphans. */
  lemma StopReachesAllIffNoOrphans(p: Pod)
    requires Inv(p)
    ensures AllTold(Shed(p, p.leases.Keys)) <==> NoOrphans(p)
  {
    var q := Shed(p, p.leases.Keys);
    forall i | 0 <= i < |p.entries|
      ensures (Live(q.entries[i].heartbeat) ==> q.entries[i].closes == 1) <==> !Orphan(p, i)
    {
      assert EntryOk(p, i);
    }
  }

  /** The event installs a claim for a stream that is leased by an entry whose heartbeat is running. */
  predicate ClaimsLeased(p: Pod, e: Event) {
    e.Claim? && e.stream in p.leases && p.leases[e.stream] < |p.entries|
    && Live(p.entries[p.leases[e.stream]].heartbeat)
  }

  lemma ShedOrphansNothing(p: Pod, streams: set<StreamId>)
    requires Inv(p) && NoOrphans(p)
    ensures NoOrphans(Shed(p, streams))
  {
    var q := Shed(p, streams);
    forall i | 0 <= i < |q.entries| ensures !Orphan(q, i) {
      assert EntryOk(p, i) && !Orphan(p, i);
    }
  }

  lemma RenewalOrphansNothing(p: Pod, i: nat, ok: bool)
    requires Inv(p) && NoOrphans(p) && i < |p.entries|
    ensures NoOrphans(Renewed(p, i, ok))
  {
    var q := Renewed(p, i, ok);
    forall j | 0 <= j < |q.entries| ensures !Orphan(q, j) {
      assert EntryOk(p, j) && !Orphan(p, j);
    }
  }

  lemma ClaimOrphansIffLeased(p: Pod, stream: StreamId, callback: bool)
    requires Inv(p) && NoOrphans(p)
    ensures NoOrphans(Claimed(p, stream, callback)) <==> !ClaimsLeased(p, Claim(stream, callback))
  {
    var q := Claimed(p, stream, callback);
    forall j | 0 <= j < |p.entries|
      ensures Orphan(q, j) <==> ClaimsLeased(p, Claim(stream, callback)) && j == p.leases[stream]
    {
      assert EntryOk(p, j) && !Orphan(p, j);
    }
    assert ClaimsLeased(p, Claim(stream, callback)) ==> Orphan(q, p.leases[stream]);
  }

  /** From a pod without orphans, a step makes one exactly if it installs a claim for a stream that is leased by a
      running heartbeat. */
  lemma StepOrphansIffClaimOfLeased(p: Pod, period: int, e: Event)
    requires Inv(p) && NoOrphans(p)
    ensures NoOrphans(Next(p, period, e)) <==> !ClaimsLeased(p, e)
  {
    var q := Next(p, period, e);
    match e {
      case Refresh(stream, callback) =>
        forall j | 0 <= j < |q.entries| ensures !Orphan(q, j) { assert !Orphan(p, j); }
      case Claim(stream, callback) => ClaimOrphansIffLeased(p, stream, callback);
      case Release(stream) => ShedOrphansNothing(p, {stream});
      case StopAll => ShedOrphansNothing(p, p.leases.Keys);
      case Rebalance(now, peerCount, total) => RebalanceOrphansNothing(p, now, period, peerCount, total);
      case Renew(i, ok) => if i < |p.entries| { RenewalOrphansNothing(p, i, ok); }
      case SeeStop(i) =>
        forall j | 0 <= j < |q.entries| ensures !Orphan(q, j) { assert !Orphan(p, j); }
    }
  }

  lemma RebalanceOrphansNothing(p: Pod, now: int, period: int, peerCount: int, total: nat)
    requires Inv(p) && NoOrphans(p)
    ensures NoOrphans(Rebalanced(p, now, period, peerCount, total).0)
  {
    var (last, stableAt, pass) := Gate(p.lastPeerCount, p.stableAt, now, period, Observed(peerCount));
    var gated := p.(lastPeerCount := last, stableAt := stableAt);
    GatedKeepsInv(p, last, stableAt);
    assert NoOrphans(gated) by {
      forall j | 0 <= j < |p.entries| ensures !Orphan(gated, j) { assert !Orphan(p, j); }
    }
    ShedOrphansNothing(gated, Rebalanced(p, now, period, peerCount, total).1);
  }

  ghost predicate NeverOrphans(p: Pod, period: int, events: seq<Event>)
    decreases |events|
  {
    NoOrphans(p) && (events != [] ==> NeverOrphans(Next(p, period, events[0]), period, events[1..]))
  }

  ghost predicate NeverClaimsLeased(p: Pod, period: int, events: seq<Event>)
    decreases |events|
  {
    events != [] ==>
      !ClaimsLeased(p, events[0]) && NeverClaimsLeased(Next(p, period, events[0]), period, events[1..])
  }

  /** A run never has an orphan exactly if no claim in it is installed over the lease of a running heartbeat: only
      two overlapping claims for one stream, both granted, lose one. */
  lemma {:induction false} NoOrphansIffNoOverlap(p: Pod, period: int, events: seq<Event>)
    requires Inv(p) && NoOrphans(p)
    ensures NeverOrphans(p, period, events) <==> NeverClaimsLeased(p, period, events)
    decreases |events|
  {
    if events != [] {
      StepOrphansIffClaimOfLeased(p, period, events[0]);
      if !ClaimsLeased(p, events[0]) {
        StepKeepsInv(p, period, events[0]);
        NoOrphansIffNoOverlap(Next(p, period, events[0]), period, events[1..]);
      }
    }
  }

  /** Two claims for one stream that overlap leave the first entry's heartbeat running, and its channel
      open, with nothing in the lease map to stop it. */
  lemma OverlappingClaimsOrphanTheFirst(p: Pod, stream: StreamId)
    requires Inv(p)
    ensures var q := Claimed(Claimed(p, stream, true), stream, true);
            var first := |p.entries|;
            && Orphan(q, first) && q.entries[first].heartbeat == Starting
            && Shed(q, q.leases.Keys).entries[first] == q.entries[first]
  {
  }

  // ---------- heartbeats over runs ----------

  /** The outcomes of entry i's renewals in a run, in order. */
  function Renewals(events: seq<Event>, i: nat): seq<bool> {
    if events == [] then []
    else (match events[0] case Renew(j, ok) => if i == j then [ok] else [] case _ => [])
         + Renewals(events[1..], i)
  }

  function Beats(heartbeat: Heartbeat, renewals: seq<bool>): Heartbeat
    decreases |renewals|
  {
    if renewals == [] then heartbeat else Beats(Beat(heartbeat, renewals[0]), renewals[1..])
  }

  predicate TwoFailuresInARow(renewals: seq<bool>) {
    exists k :: 0 <= k < |renewals| - 1 && !renewals[k] && !renewals[k + 1]
  }

  /** `earlier` consecutive failures before `renewals`. */
  lemma {:induction false} LostMeansTwoFailures(earlier: nat, renewals: seq<bool>)
    requires earlier < 2
    ensures Beats(Ticking(earlier), renewals) in {Ticking(0), Ticking(1), Lost}
    ensures Beats(Ticking(earlier), renewals).Lost?
        <==> TwoFailuresInARow(if earlier == 0 then renewals else [false] + renewals)
    decreases |renewals|
  {
    if renewals != [] {
      var all := if earlier == 0 then renewals else [false] + renewals;
      if renewals[0] {
        LostMeansTwoFailures(0, renewals[1..]);
        TailOfRow(all, earlier + 1);
        assert all[earlier + 1..] == renewals[1..];
      } else if earlier == 0 {
        LostMeansTwoFailures(1, renewals[1..]);
        assert [false] + renewals[1..] == renewals;
      } else {
        DeadIsFinal(Lost, renewals[1..]);
        assert !all[0] && !all[1];
      }
    }
  }

  lemma {:induction false} DeadIsFinal(heartbeat: Heartbeat, renewals: seq<bool>)
    requires heartbeat in {FailedAtStart, Stopped, Lost}
    ensures Beats(heartbeat, renewals) == heartbeat
  {
    if renewals != [] {
      DeadIsFinal(heartbeat, renewals[1..]);
    }
  }

  lemma TailOfRow(renewals: seq<bool>, n: nat)
    requires 0 < n <= |renewals| && n <= 2 && renewals[n - 1]
    ensures TwoFailuresInARow(renewals) <==> TwoFailuresInARow(renewals[n..])
  {
  }

  lemma NextHeartbeat(p: Pod, period: int, e: Event, i: nat)
    requires Inv(p) && i < |p.entries|
    ensures var q := Next(p, period, e);
            && i < |q.entries|
            && (q.entries[i].heartbeat == Stopped
                || q.entries[i].heartbeat == Beats(p.entries[i].heartbeat, Renewals([e], i)))
            && (p.entries[i].heartbeat == Stopped ==> q.entries[i].heartbeat == Stopped)
            && (q.entries[i].heartbeat == Stopped ==> p.entries[i].heartbeat == Stopped || e == SeeStop(i))
  {
    if e.Rebalance? {
      var (last, stableAt, pass) := Gate(p.lastPeerCount, p.stableAt, e.now, period, Observed(e.peerCount));
    }
    if e == Renew(i, true) || e == Renew(i, false) {
      assert Renewals([e], i) == [e.ok];
      assert Beats(p.entries[i].heartbeat, [e.ok]) == Beat(p.entries[i].heartbeat, e.ok);
    } else {
      assert Renewals([e], i) == [];
    }
  }

  lemma {:induction false} BeatsAppend(heartbeat: Heartbeat, a: seq<bool>, b: seq<bool>)
    ensures Beats(heartbeat, a + b) == Beats(Beats(heartbeat, a), b)
    decreases |a|
  {
    if a == [] {
      assert a + b == b;
    } else {
      assert (a + b)[1..] == a[1..] + b;
      BeatsAppend(Beat(heartbeat, a[0]), a[1..], b);
    }
  }

  /** In every run an entry's heartbeat is decided by its own renewals, until it sees its stop channel closed. */
  lemma {:induction false} HeartbeatFollowsRenewals(p: Pod, period: int, events: seq<Event>, i: nat)
    requires Inv(p) && i < |p.entries|
    ensures var q := Run(p, period, events);
            && Inv(q) && i < |q.entries|
            && (q.entries[i].heartbeat == Stopped
                || q.entries[i].heartbeat == Beats(p.entries[i].heartbeat, Renewals(events, i)))
            && (p.entries[i].heartbeat == Stopped ==> q.entries[i].heartbeat == Stopped)
            && (q.entries[i].heartbeat == Stopped ==> p.entries[i].heartbeat == Stopped || SeeStop(i) in events)
    decreases |events|
  {
    if events != [] {
      var e := events[0];
      NextHeartbeat(p, period, e, i);
      StepKeepsInv(p, period, e);
      HeartbeatFollowsRenewals(Next(p, period, e), period, events[1..], i);
      assert Renewals([e], i) + Renewals(events[1..], i) == Renewals(events, i);
      BeatsAppend(p.entries[i].heartbeat, Renewals([e], i), Renewals(events[1..], i));
    }
  }

  /** In every run of the pod, a heartbeat past its initial renewal gives its lease up only after two
      consecutive failed ticks, and once two consecutive ticks have failed the lease is not in the map;
      one success in between resets the count. */
  lemma {:induction false} LostExactlyAfterTwoFailures(p: Pod, period: int, events: seq<Event>, i: nat)
    requires Inv(p) && i < |p.entries| && p.entries[i].heartbeat == Ticking(0)
    ensures var q := Run(p, period, events);
            && i < |q.entries|
            && (q.entries[i].heartbeat.Lost? ==> TwoFailuresInARow(Renewals(events, i)))
            && (TwoFailuresInARow(Renewals(events, i)) ==> !Current(q, i))
            && (TwoFailuresInARow(Renewals(events, i)) && SeeStop(i) !in events ==> q.entries[i].heartbeat.Lost?)
            && q.entries[i].notified == if q.entries[i].heartbeat.Lost? && q.entries[i].callback then 1 else 0
  {
    HeartbeatFollowsRenewals(p, period, events, i);
    LostMeansTwoFailures(0, Renewals(events, i));
    assert EntryOk(Run(p, period, events), i);
  }

  /** A heartbeat that was told to stop ends: a ticking one when it sees the channel, one still at its initial renewal
      after that, whatever its outcome. No other entry and no lease changes. */
  lemma ToldHeartbeatEnds(p: Pod, period: int, i: nat, ok: bool)
    requires Inv(p) && i < |p.entries| && Live(p.entries[i].heartbeat) && p.entries[i].closes == 1
    ensures var q := Next(p, period, SeeStop(i));
            && (p.entries[i].heartbeat.Ticking? ==>
                  q == p.(entries := p.entries[i := p.entries[i].(heartbeat := Stopped)]))
            && (p.entries[i].heartbeat.Starting? ==> q == p)
    ensures var q := Next(Next(p, period, Renew(i, ok)), period, SeeStop(i));
            && |q.entries| == |p.entries| && !Live(q.entries[i].heartbeat) && q.leases == p.leases
            && forall j :: 0 <= j < |p.entries| && j != i ==> q.entries[j] == p.entries[j]
  {
    assert EntryOk(p, i);
  }

  // ---------- lost callbacks ----------

  /** The event brings a lost callback to entry i: the claim that makes the entry, or a refresh of its lease. */
  predicate Brings(p: Pod, e: Event, i: nat) {
    match e
    case Claim(_, callback) => callback && i == |p.entries|
    case Refresh(stream, callback) => callback && i < |p.entries| && p.entries[i].stream == stream && Current(p, i)
    case _ => false
  }

  ghost predicate Brought(p: Pod, period: int, events: seq<Event>, i: nat)
    decreases |events|
  {
    events != [] && (Brings(p, events[0], i) || Brought(Next(p, period, events[0]), period, events[1..], i))
  }

  lemma CallbackStep(p: Pod, period: int, e: Event, i: nat)
    requires Inv(p) && i < |Next(p, period, e).entries|
    ensures Next(p, period, e).entries[i].callback
       <==> (i < |p.entries| && p.entries[i].callback) || Brings(p, e, i)
  {
    match e {
      case Rebalance(now, peerCount, total) => RebalanceKeepsCallbacks(p, now, period, peerCount, total);
      case Refresh(stream, callback) => assert stream in p.leases ==> EntryOk(p, p.leases[stream]);
      case _ =>
    }
  }

  lemma RebalanceKeepsCallbacks(p: Pod, now: int, period: int, peerCount: int, total: nat)
    ensures var q := Rebalanced(p, now, period, peerCount, total).0;
            && |q.entries| == |p.entries|
            && forall i :: 0 <= i < |p.entries| ==> q.entries[i].callback == p.entries[i].callback
  {
    var (last, stableAt, pass) := Gate(p.lastPeerCount, p.stableAt, now, period, Observed(peerCount));
  }

  lemma EntriesGrow(p: Pod, period: int, e: Event)
    ensures |p.entries| <= |Next(p, period, e).entries|
    ensures |Next(p, period, e).entries| == |p.entries| + if e.Claim? then 1 else 0
  {
  }

  lemma {:induction false} CallbackIffBrought(p: Pod, period: int, events: seq<Event>, i: nat)
    requires Inv(p) && i < |Run(p, period, events).entries|
    ensures Run(p, period, events).entries[i].callback
       <==> (i < |p.entries| && p.entries[i].callback) || Brought(p, period, events, i)
    decreases |events|
  {
    if events != [] {
      var q := Next(p, period, events[0]);
      StepKeepsInv(p, period, events[0]);
      CallbackIffBrought(q, period, events[1..], i);
      if i < |q.entries| {
        CallbackStep(p, period, events[0], i);
      } else {
        EntriesGrow(p, period, events[0]);
      }
    }
  }

  /** In every run of a pod an entry's lost callback has been started exactly once if the entry was lost and the claim
      that made it, or a later call for its stream while it held the lease, brought a callback; otherwise not at
      all. */
  lemma {:induction false} LostIsNotifiedOnce(period: int, events: seq<Event>, i: nat)
    requires i < |Run(NewPod(), period, events).entries|
    ensures var e := Run(NewPod(), period, events).entries[i];
            e.notified == if e.heartbeat.Lost? && Brought(NewPod(), period, events, i) then 1 else 0
  {
    EveryRunKeepsInv(NewPod(), period, events);
    CallbackIffBrought(NewPod(), period, events, i);
    assert EntryOk(Run(NewPod(), period, events), i);
  }

  // ---------- entries whose heartbeat never started ----------

  /** In every run, an entry that still has its lease has a dead heartbeat exactly if its initial renewal
      failed: that failure ends the heartbeat and leaves the lease. */
  lemma {:induction false} DeadIffFailedAtStart(p: Pod, period: int, events: seq<Event>, i: nat)
    requires Inv(p) && i < |p.entries| && p.entries[i].heartbeat == Starting
    ensures var q := Run(p, period, events);
            var renewals := Renewals(events, i);
            i < |q.entries| && (Current(q, i) ==>
              && (q.entries[i].heartbeat == FailedAtStart <==> renewals != [] && !renewals[0])
              && (q.entries[i].heartbeat.Starting? || q.entries[i].heartbeat.Ticking?
                  <==> renewals == [] || renewals[0]))
  {
    var q, renewals := Run(p, period, events), Renewals(events, i);
    HeartbeatFollowsRenewals(p, period, events, i);
    assert EntryOk(q, i);
    if renewals != [] {
      if renewals[0] {
        LostMeansTwoFailures(0, renewals[1..]);
      } else {
        DeadIsFinal(FailedAtStart, renewals[1..]);
      }
    }
  }

  /** Such entries exist: a claim whose initial renewal fails keeps its lease. */
  lemma DeadHeartbeatOnALease(p: Pod, stream: StreamId)
    requires Inv(p)
    ensures var q := Renewed(Claimed(p, stream, true), |p.entries|, false);
            stream in q.leases && q.entries[q.leases[stream]].heartbeat == FailedAtStart
  {
  }

  /** The observations of the rebalances in a run, in order. */
  function Observations(events: seq<Event>): seq<Observation> {
    if events == [] then []
    else (match events[0] case Rebalance(now, peerCount, _) => [Observation(now, peerCount)] case _ => [])
         + Observations(events[1..])
  }

  lemma NextGate(p: Pod, period: int, seen: seq<Observation>, e: Event)
    requires (p.lastPeerCount, p.stableAt) == GateAfter(seen, period)
    ensures var q := Next(p, period, e);
            (q.lastPeerCount, q.stableAt) == GateAfter(seen + Observations([e]), period)
  {
    if e.Rebalance? {
      var o := Observation(e.now, e.peerCount);
      assert Observations([e]) == [o];
      assert (seen + [o])[..|seen|] == seen;
    } else {
      assert seen + Observations([e]) == seen;
    }
  }

  lemma {:induction false} GateFollowsRebalances(p: Pod, period: int, seen: seq<Observation>, events: seq<Event>)
    requires (p.lastPeerCount, p.stableAt) == GateAfter(seen, period)
    ensures var q := Run(p, period, events);
            (q.lastPeerCount, q.stableAt) == GateAfter(seen + Observations(events), period)
    decreases |events|
  {
    if events == [] {
      assert seen + Observations(events) == seen;
    } else {
      var now := Observations([events[0]]);
      NextGate(p, period, seen, events[0]);
      assert Observations(events) == now + Observations(events[1..]);
      assert (seen + now) + Observations(events[1..]) == seen + Observations(events);
      GateFollowsRebalances(Next(p, period, events[0]), period, seen + now, events[1..]);
    }
  }

  /** Even with one lease fewer at every peer all streams would be covered. */
  predicate AboveShare(leases: nat, peerCount: int, total: nat) {
    var n := if peerCount <= 0 then 1 else peerCount;
    total <= (leases - 1) * n
  }

  /** In every run of a pod a rebalance releases leases exactly if one lease fewer would be enough, and one and the
      same peer count has been observed for at least the stabilization period. */
  lemma {:induction false} RebalanceReleasesIffStable(
    period: int, events: seq<Event>, now: int, peerCount: int, total: nat)
    requires 0 < period && InTimeOrder(Observations(events) + [Observation(now, peerCount)])
    ensures var p := Run(NewPod(), period, events);
            Rebalanced(p, now, period, peerCount, total).1 != {}
            <==> AboveShare(|p.leases|, peerCount, total)
                 && Stable(Observations(events), period, Observation(now, peerCount))
  {
    var p, seen := Run(NewPod(), period, events), Observations(events);
    GateFollowsRebalances(NewPod(), period, [], events);
    assert [] + seen == seen;
    GateOpensIffStable(seen, period, Observation(now, peerCount));
    RebalancedIs(p, now, period, peerCount, total);
    AboveCap(|p.leases|, peerCount, total);
  }

  lemma AboveCap(leases: nat, peerCount: int, total: nat)
    ensures AboveShare(leases, peerCount, total) <==> Cap(total, Observed(peerCount)) < leases
  {
    var n, cap := Observed(peerCount), Cap(total, Observed(peerCount));
    CapsCoverAllStreams(total, n);
    if cap < leases {
      Scaled(cap, leases - 1, n);
    } else if 0 < total {
      Scaled(leases - 1, cap - 1, n);
    }
  }
}
