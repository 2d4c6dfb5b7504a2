/** The coordinator object of one pod: its lease map of shared, mutable entries, updated in place under
    the lock. Each method is one locked region and is proved against its step in Leases. */
module Coordinator {
  import opened StreamIds
  import L = Leases

  datatype Reply = Granted | Refused | Failed

  /** A lease entry with its stop channel and lost callback; `heartbeat` is how far the goroutine that
      renews it has come. */
  class LeaseEntry {
    const stream: StreamId
    ghost const at: nat
    var stopClosed: bool
    var callback: bool
    var notified: nat
    var heartbeat: L.Heartbeat

    constructor (stream: StreamId, callback: bool, ghost at: nat)
      ensures this.at == at && Value() == L.Entry(stream, 0, callback, 0, L.Starting)
    {
      this.stream, this.callback, this.at := stream, callback, at;
      stopClosed, notified, heartbeat := false, 0, L.Starting;
    }

    function Value(): L.Entry
      reads this
    {
      L.Entry(stream, if stopClosed then 1 else 0, callback, notified, heartbeat)
    }

    /** Closing a closed channel panics. */
    method CloseStop()
      requires !stopClosed
      modifies this`stopClosed
      ensures stopClosed
    {
      stopClosed := true;
    }
  }

  class LeadershipCoordinator {
    const stabilizationPeriod: int
    var leases: map<StreamId, LeaseEntry>
    var lastPeerCount: int
    var peerCountStableAt: int

    /** Every entry ever made, in order, and the pod state all the fields stand for. */
    ghost var created: seq<LeaseEntry>
    ghost var pod: L.Pod

    /** The fields stand for `pod`; every lease is filed under its own stream and its channel is open. */
    ghost predicate Valid()
      reads this, created
    {
      && |created| == |pod.entries|
      && (forall i {:trigger created[i]} :: 0 <= i < |created| ==>
            created[i].at == i && created[i].Value() == pod.entries[i])
      && leases.Keys == pod.leases.Keys
      && (forall s :: s in leases ==>
            && leases[s].at == pod.leases[s] < |created| && created[leases[s].at] == leases[s]
            && leases[s].stream == s && !leases[s].stopClosed)
      && lastPeerCount == pod.lastPeerCount && peerCountStableAt == pod.stableAt
    }

    constructor (stabilizationPeriod: int)
      ensures Valid() && pod == L.NewPod() && this.stabilizationPeriod == stabilizationPeriod
    {
      this.stabilizationPeriod := stabilizationPeriod;
      leases, lastPeerCount, peerCountStableAt, created, pod := map[], 0, 0, [], L.NewPod();
    }

    /** The first locked region of EnsureLeadership. */
    method FindLease(stream: StreamId, callback: bool) returns (found: bool)
      requires Valid()
      modifies this`pod, created
      ensures Valid()
      ensures found <==> stream in leases
      ensures pod == L.Refreshed(old(pod), stream, callback)
    {
      found := stream in leases;
      if found && callback {
        leases[stream].callback := true;
        pod := L.Refreshed(pod, stream, callback);
      }
    }

    /** The second locked region of EnsureLeadership, after a granted claim. */
    method InstallLease(stream: StreamId, callback: bool)
      requires Valid()
      modifies this`leases, this`created, this`pod
      ensures Valid() && |created| == |old(created)| + 1 && created[..|old(created)|] == old(created)
      ensures fresh(created[|old(created)|])
      ensures pod == L.Claimed(old(pod), stream, callback)
    {
      var entry := new LeaseEntry(stream, callback, |created|);
      created := created + [entry];
      leases := leases[stream := entry];
      pod := L.Claimed(pod, stream, callback);
    }

    /** EnsureLeadership with nothing happening between its locked regions. */
    method EnsureLeadership(stream: StreamId, callback: bool, reply: Reply) returns (leads: bool, failed: bool)
      requires Valid()
      modifies this`leases, this`created, this`pod, created
      ensures Valid()
      ensures leads == (stream in old(leases) || reply.Granted?)
      ensures failed == (stream !in old(leases) && reply.Failed?)
      ensures pod == if stream in old(leases) then L.Refreshed(old(pod), stream, callback)
                     else if reply.Granted? then L.Claimed(old(pod), stream, callback)
                     else old(pod)
    {
      var found := FindLease(stream, callback);
      if found {
        return true, false;
      }
      match reply {
        case Failed => return false, true;
        case Refused => return false, false;
        case Granted =>
          InstallLease(stream, callback);
          return true, false;
      }
    }

    /** Closes and deletes the lease on one stream. */
    method Drop(stream: StreamId)
      requires Valid() && stream in leases
      modifies this`leases, this`pod, created
      ensures Valid() && leases.Keys == old(leases).Keys - {stream}
      ensures pod == L.Shed(old(pod), {stream})
    {
      var entry := leases[stream];
      L.ShedOne(pod, stream);
      entry.CloseStop();
      leases := leases - {stream};
      pod := L.Shed(pod, {stream});
    }

    /** Release; the result is whether a release call goes to the server. */
    method Release(stream: StreamId) returns (released: bool)
      requires Valid()
      modifies this`leases, this`pod, created
      ensures Valid()
      ensures released <==> stream in old(leases)
      ensures pod == L.Shed(old(pod), {stream})
    {
      released := stream in leases;
      if released {
        Drop(stream);
      } else {
        L.ShedNone(pod, {stream});
      }
    }

    /** Drops one more lease of a set being dropped. */
    method DropAlso(stream: StreamId, ghost before: L.Pod, ghost done: set<StreamId>)
      requires Valid() && stream in leases
      requires pod == L.Shed(before, done) && stream !in done
      modifies this`leases, this`pod, created
      ensures Valid() && leases.Keys == old(leases).Keys - {stream}
      ensures pod == L.Shed(before, done + {stream})
    {
      Drop(stream);
      L.ShedTwice(before, done, {stream});
    }

    /** Drops the leases on a list of distinct streams, as the release loop of Rebalance does. */
    method ReleaseAll(streams: seq<StreamId>)
      requires Valid() && Elements(streams) <= leases.Keys
      requires Distinct(streams)
      modifies this`leases, this`pod, created
      ensures Valid() && leases.Keys == old(leases).Keys - Elements(streams)
      ensures pod == L.Shed(old(pod), Elements(streams))
    {
      ghost var before, all, done: set<StreamId> := pod, leases.Keys, {};
      L.ShedNone(pod, {});
      for k := 0 to |streams|
        invariant Valid() && created == old(created)
        invariant DoneBefore(streams, k, done)
        invariant leases.Keys == all - done
        invariant pod == L.Shed(before, done)
      {
        OneMore(streams, k, all, done);
        DropAlso(streams[k], before, done);
        done := done + {streams[k]};
      }
      AllDone(streams, done);
    }

    /** Stop; the result lists the streams whose release calls go to the server. */
    method Stop() returns (streams: seq<StreamId>)
      requires Valid()
      modifies this`leases, this`pod, created
      ensures Valid() && leases == map[]
      ensures Elements(streams) == old(leases).Keys && |streams| == |old(leases)|
      ensures pod == L.Shed(old(pod), old(leases).Keys)
    {
      assert |leases| == |leases.Keys|;
      streams := Collect(leases.Keys);
      ReleaseAll(streams);
    }

    /** The gate of Rebalance: whether leases may be shed at time `now`. */
    method PassGate(now: int, peers: nat) returns (pass: bool)
      requires Valid()
      modifies this`lastPeerCount, this`peerCountStableAt, this`pod
      ensures Valid()
      ensures var g := L.Gate(old(pod).lastPeerCount, old(pod).stableAt, now, stabilizationPeriod, peers);
              pod == old(pod).(lastPeerCount := g.0, stableAt := g.1) && pass == g.2
    {
      pass := true;
      if stabilizationPeriod > 0 {
        if lastPeerCount != peers {
          lastPeerCount, peerCountStableAt := peers, now + stabilizationPeriod;
          pass := false;
        } else if now < peerCountStableAt {
          pass := false;
        }
      }
      pod := pod.(lastPeerCount := lastPeerCount, stableAt := peerCountStableAt);
    }

    /** Rebalance after RegisterPeer answered `peerCount` at time `now`; the result is what it returns. */
    method Rebalance(now: int, peerCount: int, totalStreams: nat) returns (toRelease: seq<StreamId>)
      requires Valid()
      modifies this`leases, this`lastPeerCount, this`peerCountStableAt, this`pod, created
      ensures Valid() && Ascending(toRelease)
      ensures var (after, released) :=
                L.Rebalanced(old(pod), now, stabilizationPeriod, peerCount, totalStreams);
              pod == after && Elements(toRelease) == released
      ensures if L.Settled(old(lastPeerCount), old(peerCountStableAt), now, stabilizationPeriod, peerCount)
              then forall keep: nat :: L.FairShare(keep, peerCount, totalStreams) ==>
                     |pod.leases| == if keep < |old(pod).leases| then keep else |old(pod).leases|
              else toRelease == [] && pod.leases == old(pod).leases
    {
      forall keep: nat | L.FairShare(keep, peerCount, totalStreams) {
        L.RebalanceReleasesTheLast(pod, now, stabilizationPeriod, peerCount, totalStreams, keep);
      }
      L.CapIsFairShare(peerCount, totalStreams, L.Cap(totalStreams, L.Observed(peerCount)));
      var peers := L.Observed(peerCount);
      var pass := PassGate(now, peers);
      if pass {
        toRelease := ShedExcess(L.Cap(totalStreams, peers));
      } else {
        toRelease := [];
      }
    }

    /** Releases the alphabetically last leases above `maxPerPod`. */
    method ShedExcess(maxPerPod: nat) returns (toRelease: seq<StreamId>)
      requires Valid()
      modifies this`leases, this`pod, created
      ensures Valid() && Ascending(toRelease)
      ensures var (after, released) := L.ShedAbove(old(pod), maxPerPod);
              pod == after && Elements(toRelease) == released
    {
      assert |leases| == |leases.Keys| && |pod.leases| == |pod.leases.Keys|;
      if |leases| - maxPerPod <= 0 {
        return [];
      }
      toRelease := SortAndCut(leases.Keys, maxPerPod);
      ReleaseAll(toRelease);
    }

    /** One renewal by the heartbeat of `entry`. */
    method HeartbeatRenewal(entry: LeaseEntry, renewed: bool)
      requires Valid() && entry in created
      modifies this`leases, this`pod, entry
      ensures Valid()
      ensures pod == L.Renewed(old(pod), entry.at, renewed)
    {
      assert created[entry.at] == entry;
      var next := L.Beat(entry.heartbeat, renewed);
      if next.Lost? && !entry.heartbeat.Lost? {
        GiveUp(entry);
      } else {
        entry.heartbeat := next;
        pod := pod.(entries := pod.entries[entry.at := entry.Value()]);
      }
    }

    /** A heartbeat gives up: the locked clean-up, then the lost callback. */
    method GiveUp(entry: LeaseEntry)
      requires Valid() && entry in created
      modifies this`leases, this`pod, entry
      ensures Valid()
      ensures pod == L.GivenUp(old(pod), entry.at)
    {
      DeleteOwn(entry);
      Finish(entry);
    }

    /** Ends a lost entry's heartbeat and starts its lost callback, if it has one. */
    method Finish(entry: LeaseEntry)
      requires Valid() && entry in created
      modifies this`pod, entry`notified, entry`heartbeat
      ensures Valid()
      ensures var e := old(pod).entries[entry.at];
              pod == old(pod).(entries := old(pod).entries[entry.at :=
                e.(heartbeat := L.Lost, notified := if e.callback then e.notified + 1 else e.notified)])
    {
      assert created[entry.at] == entry;
      if entry.callback {
        entry.notified := entry.notified + 1;
      }
      entry.heartbeat := L.Lost;
      pod := pod.(entries := pod.entries[entry.at := entry.Value()]);
    }

    /** Deletes a lease if it is still the given entry's own. */
    method DeleteOwn(entry: LeaseEntry)
      requires Valid() && entry in created
      modifies this`leases, this`pod
      ensures Valid()
      ensures pod == if L.Current(old(pod), entry.at)
                     then old(pod).(leases := old(pod).leases - {entry.stream}) else old(pod)
    {
      assert created[entry.at] == entry;
      if entry.stream in leases && leases[entry.stream] == entry {
        leases := leases - {entry.stream};
        pod := pod.(leases := pod.leases - {entry.stream});
      }
    }
  }

  lemma AscendingIsDistinct(ids: seq<StreamId>)
    requires Ascending(ids)
    ensures Distinct(ids)
  {
    forall i, j | 0 <= i < j < |ids| ensures ids[i] != ids[j] {
      BeforeIsTotal(ids[i], ids[j]);
    }
  }

  lemma EndIsPart(ids: seq<StreamId>, keep: nat)
    requires keep <= |ids|
    ensures Elements(ids[keep..]) <= Elements(ids)
  {
  }

  lemma SortedIsOrdered(list: seq<StreamId>, ids: set<StreamId>)
    requires Elements(list) == ids && Distinct(list)
    ensures Sorted(list) == Ordered(ids) && |list| == |ids|
  {
    SortedAscends(list);
    AscendingIsUnique(Sorted(list), Ordered(ids));
  }

  lemma PartAscends(ids: seq<StreamId>, keep: nat)
    requires Ascending(ids) && keep <= |ids|
    ensures Ascending(ids[keep..])
  {
  }

  /** However a set was listed, its sorted list ends with the alphabetically last ids, each once. */
  lemma EndOfSorted(list: seq<StreamId>, ids: set<StreamId>, keep: nat)
    requires Elements(list) == ids && Distinct(list) && keep <= |list|
    ensures keep <= |ids|
    ensures var end := Sorted(list)[keep..];
            Ascending(end) && Distinct(end) && Elements(end) == LastAfter(ids, keep) <= ids
  {
    SortedIsOrdered(list, ids);
    PartAscends(Ordered(ids), keep);
    AscendingIsDistinct(Ordered(ids)[keep..]);
    EndIsPart(Ordered(ids), keep);
  }

  ghost predicate Distinct(ids: seq<StreamId>) {
    forall i, j :: 0 <= i < j < |ids| ==> ids[i] != ids[j]
  }

  lemma ElementsOfSnoc(ids: seq<StreamId>, id: StreamId)
    ensures Elements(ids + [id]) == Elements(ids) + {id}
  {
  }

  /** Of a list of distinct ids exactly the first k are done. */
  ghost predicate DoneBefore(ids: seq<StreamId>, k: nat, done: set<StreamId>) {
    done <= Elements(ids) && forall j :: 0 <= j < |ids| ==> (ids[j] in done <==> j < k)
  }

  lemma OneMore(ids: seq<StreamId>, k: nat, all: set<StreamId>, done: set<StreamId>)
    requires k < |ids| && Distinct(ids) && Elements(ids) <= all && DoneBefore(ids, k, done)
    ensures ids[k] in all && ids[k] !in done && DoneBefore(ids, k + 1, done + {ids[k]})
  {
    assert ids[k] in Elements(ids);
  }

  lemma AllDone(ids: seq<StreamId>, done: set<StreamId>)
    requires DoneBefore(ids, |ids|, done)
    ensures done == Elements(ids)
  {
  }

  /** The ids of a set in some order, as a map iteration yields them. */
  method Collect(ids: set<StreamId>) returns (list: seq<StreamId>)
    ensures Elements(list) == ids && |list| == |ids|
    ensures Distinct(list)
  {
    list := [];
    var todo := ids;
    while todo != {}
      invariant todo <= ids && Elements(list) == ids - todo && |list| + |todo| == |ids|
      invariant Distinct(list)
      decreases |todo|
    {
      var id :| id in todo;
      assert id !in Elements(list);
      ElementsOfSnoc(list, id);
      list := list + [id];
      todo := todo - {id};
    }
  }

  /** Collects the ids of a set, sorts them and cuts off the first `keep`. */
  method SortAndCut(ids: set<StreamId>, keep: nat) returns (end: seq<StreamId>)
    requires keep <= |ids|
    ensures Ascending(end) && Distinct(end) && Elements(end) == LastAfter(ids, keep) <= ids
  {
    var streamIDs := Collect(ids);
    EndOfSorted(streamIDs, ids, keep);
    end := Sorted(streamIDs)[keep..];
  }

  const MAX_RETRIES: nat := 3

  /** What a renewal attempt of the server answers: renewed, refused, or an error. */
  datatype Answer = Yes | No | Error

  /** A renewal with retries fails on a refusal and after three errors; `answers(k)` is what the server
      says to the k-th call. */
  method TryRenewWithRetry(answers: nat -> Answer) returns (ok: bool, calls: nat)
    ensures 1 <= calls <= 3
    ensures forall k: nat :: k < calls - 1 ==> answers(k) == Error
    ensures answers(calls - 1) == Error ==> calls == 3
    ensures ok <==> answers(calls - 1) == Yes
  {
    ok, calls := false, 0;
    for attempt := 0 to MAX_RETRIES
      invariant calls == attempt && !ok
      invariant forall k: nat :: k < calls ==> answers(k) == Error
    {
      calls := attempt + 1;
      match answers(attempt) {
        case Yes => return true, calls;
        case No => return false, calls;
        case Error =>
      }
    }
  }

  /** What the select of a ticking heartbeat takes: a tick, with the outcome of its renewal, or the closed stop
      channel. */
  datatype Wake = Tick(ok: bool) | StopClosed

  function Woken(heartbeat: L.Heartbeat, wakes: seq<Wake>): L.Heartbeat
    decreases |wakes|
  {
    if wakes == [] then heartbeat
    else
      match wakes[0]
      case Tick(ok) => Woken(L.Beat(heartbeat, ok), wakes[1..])
      case StopClosed => Woken(if heartbeat.Ticking? then L.Stopped else heartbeat, wakes[1..])
  }

  function Outcomes(wakes: seq<Wake>): seq<bool> {
    if wakes == [] then []
    else (match wakes[0] case Tick(ok) => [ok] case StopClosed => []) + Outcomes(wakes[1..])
  }

  lemma {:induction false} DeadStaysDead(heartbeat: L.Heartbeat, wakes: seq<Wake>)
    requires heartbeat in {L.FailedAtStart, L.Stopped, L.Lost}
    ensures Woken(heartbeat, wakes) == heartbeat
    decreases |wakes|
  {
    if wakes != [] {
      DeadStaysDead(heartbeat, wakes[1..]);
    }
  }

  /** A ticking heartbeat is lost or still ticking as the outcomes of its ticks say, until its first look at the closed
      channel: that stops it for good if it is still there. */
  lemma {:induction false} StoppedOrAsTicksSay(heartbeat: L.Heartbeat, wakes: seq<Wake>, k: nat)
    requires heartbeat.Ticking?
    requires k <= |wakes| && StopClosed !in wakes[..k] && (k < |wakes| ==> wakes[k] == StopClosed)
    ensures var byTicks := L.Beats(heartbeat, Outcomes(wakes[..k]));
            Woken(heartbeat, wakes) == if k < |wakes| && byTicks.Ticking? then L.Stopped else byTicks
    decreases |wakes|
  {
    if wakes != [] {
      match wakes[0]
      case Tick(ok) =>
        var next := L.Beat(heartbeat, ok);
        assert k != 0 && wakes[..k][0] == wakes[0] && wakes[..k][1..] == wakes[1..][..k - 1];
        assert Outcomes(wakes[..k]) == [ok] + Outcomes(wakes[1..][..k - 1]);
        if next.Ticking? {
          assert forall w :: w in wakes[1..][..k - 1] ==> w in wakes[..k];
          StoppedOrAsTicksSay(next, wakes[1..], k - 1);
        } else {
          DeadStaysDead(next, wakes[1..]);
          L.DeadIsFinal(next, Outcomes(wakes[1..][..k - 1]));
        }
      case StopClosed => DeadStaysDead(L.Stopped, wakes[1..]);
    }
  }

  /** The heartbeat loop over the outcome of its initial renewal and what its select takes. */
  method Heartbeat(initial: bool, wakes: seq<Wake>) returns (end: L.Heartbeat)
    ensures end == if initial then Woken(L.Ticking(0), wakes) else L.FailedAtStart
  {
    if !initial {
      return L.FailedAtStart;
    }
    var consecutiveFailures := 0;
    for k := 0 to |wakes|
      invariant consecutiveFailures < L.FAILURE_THRESHOLD
      invariant Woken(L.Ticking(0), wakes) == Woken(L.Ticking(consecutiveFailures), wakes[k..])
    {
      match wakes[k] {
        case StopClosed =>
          DeadStaysDead(L.Stopped, wakes[k + 1..]);
          return L.Stopped;
        case Tick(ok) =>
          if !ok {
            consecutiveFailures := consecutiveFailures + 1;
            if consecutiveFailures >= L.FAILURE_THRESHOLD {
              DeadStaysDead(L.Lost, wakes[k + 1..]);
              return L.Lost;
            }
          } else {
            consecutiveFailures := 0;
          }
      }
    }
    end := L.Ticking(consecutiveFailures);
  }
}
