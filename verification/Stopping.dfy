/** What Stop ends: every running heartbeat of a pod, unless one is orphaned or a granted claim is still to be
    installed. */
module Stopping {
  import opened StreamIds
  import opened Fleet
  import opened Wrappers
  import Leases

  predicate Backed(f: Fleet, p: PodId, s: StreamId) { s in f.holder && f.holder[s] == p }

  // ---------- no orphans without an unsafe expiry ----------

  /** What a fleet step means for one pod, if anything. */
  function PodEvent(f: Fleet, step: Step, q: PodId): Option<Leases.Event> {
    match step
    case Install(pod, stream) =>
      if pod == q && Token(pod, stream) in f.granted then Some(Leases.Claim(stream, true)) else None
    case Release(pod, stream) => if pod == q then Some(Leases.Release(stream)) else None
    case StopAll(pod) => if pod == q then Some(Leases.StopAll) else None
    case Rebalance(pod, now, peerCount, total) =>
      if pod == q then Some(Leases.Rebalance(now, peerCount, total)) else None
    case Renew(pod, entry, reachable) =>
      if pod == q && q < |f.pods| && entry < |f.pods[q].entries| then
        Some(Leases.Renew(entry, reachable && Backed(f, q, f.pods[q].entries[entry].stream)))
      else None
    case _ => None
  }

  /** The step changes the pod as its event does. */
  ghost predicate Moves(f: Fleet, step: Step, q: PodId)
    requires q < |f.pods|
  {
    var e, g := PodEvent(f, step, q), Next(f, step);
    && |g.pods| == |f.pods|
    && g.pods[q] == if e.None? then f.pods[q] else Leases.Next(f.pods[q], PERIOD, e.value)
  }

  lemma InstallMoves(f: Fleet, pod: PodId, stream: StreamId, q: PodId)
    requires q < |f.pods|
    ensures Moves(f, Install(pod, stream), q)
  {
  }

  lemma ReleaseMoves(f: Fleet, pod: PodId, stream: StreamId, q: PodId)
    requires q < |f.pods|
    ensures Moves(f, Release(pod, stream), q)
  {
    Leases.ShedNone(f.pods[q], {stream});
  }

  lemma StopMoves(f: Fleet, pod: PodId, q: PodId)
    requires q < |f.pods|
    ensures Moves(f, StopAll(pod), q)
  {
  }

  lemma RebalanceMoves(f: Fleet, pod: PodId, now: int, peerCount: int, total: nat, q: PodId)
    requires q < |f.pods|
    ensures Moves(f, Rebalance(pod, now, peerCount, total), q)
  {
  }

  lemma RenewMoves(f: Fleet, pod: PodId, entry: nat, reachable: bool, q: PodId)
    requires q < |f.pods|
    ensures Moves(f, Renew(pod, entry, reachable), q)
  {
  }

  lemma ServerMoves(f: Fleet, step: Step, q: PodId)
    requires q < |f.pods|
    requires step.Claim? || step.ClaimReplyLost? || step.ServerRelease? || step.ReleaseFails? || step.Expire?
    ensures Moves(f, step, q)
  {
  }

  lemma PodStep(f: Fleet, step: Step, q: PodId)
    requires q < |f.pods|
    ensures Moves(f, step, q)
  {
    match step {
      case Install(pod, stream) => InstallMoves(f, pod, stream, q);
      case Release(pod, stream) => ReleaseMoves(f, pod, stream, q);
      case StopAll(pod) => StopMoves(f, pod, q);
      case Rebalance(pod, now, peerCount, total) => RebalanceMoves(f, pod, now, peerCount, total, q);
      case Renew(pod, entry, reachable) => RenewMoves(f, pod, entry, reachable, q);
      case _ => ServerMoves(f, step, q);
    }
  }

  /** In a good fleet no pod installs a claim for a stream it leads. */
  lemma GoodClaimsAreFree(f: Fleet, step: Step, q: PodId)
    requires Good(f) && q < |f.pods| && PodEvent(f, step, q).Some?
    ensures !Leases.ClaimsLeased(f.pods[q], PodEvent(f, step, q).value)
  {
    if step.Install? {
      assert Interests(f, q, step.stream) <= 1;
    }
  }

  ghost predicate PodsOk(f: Fleet) {
    forall p: PodId :: p < |f.pods| ==> Leases.Inv(f.pods[p])
  }

  ghost predicate NoOrphans(f: Fleet) {
    forall p: PodId :: p < |f.pods| ==> Leases.NoOrphans(f.pods[p])
  }

  lemma StepKeepsPodsOk(f: Fleet, step: Step)
    requires PodsOk(f)
    ensures PodsOk(Next(f, step)) && |Next(f, step).pods| == |f.pods|
    ensures Good(f) && NoOrphans(f) ==> NoOrphans(Next(f, step))
  {
    var g := Next(f, step);
    forall q: PodId | q < |f.pods|
      ensures Leases.Inv(g.pods[q]) && (Good(f) && NoOrphans(f) ==> Leases.NoOrphans(g.pods[q]))
    {
      PodStep(f, step, q);
      var e := PodEvent(f, step, q);
      if e.Some? {
        Leases.StepKeepsInv(f.pods[q], PERIOD, e.value);
        if Good(f) && NoOrphans(f) {
          GoodClaimsAreFree(f, step, q);
          Leases.StepOrphansIffClaimOfLeased(f.pods[q], PERIOD, e.value);
        }
      }
    }
  }

  lemma {:induction false} SafeRunKeepsPods(f: Fleet, steps: seq<Step>)
    requires Good(f) && PodsOk(f) && NoOrphans(f) && Safe(f, steps)
    ensures PodsOk(Run(f, steps)) && NoOrphans(Run(f, steps))
    decreases |steps|
  {
    if steps != [] {
      StepKeepsGood(f, steps[0]);
      StepKeepsPodsOk(f, steps[0]);
      SafeRunKeepsPods(Next(f, steps[0]), steps[1..]);
    }
  }

  /** Without an unsafe expiry no interleaving ever orphans a heartbeat: the server does not grant a stream to its
      holder, so two overlapping claims of one pod are not both granted. */
  lemma {:induction false} NoOrphansWithoutUnsafeExpiry(pods: nat, steps: seq<Step>)
    requires Safe(NewFleet(pods), steps)
    ensures NoOrphans(Run(NewFleet(pods), steps))
  {
    NewFleetIsGood(pods);
    SafeRunKeepsPods(NewFleet(pods), steps);
  }

  // ---------- stopping a pod ----------

  /** The pod makes no claims. */
  predicate NoClaimsBy(steps: seq<Step>, p: PodId) {
    forall step :: step in steps ==> !(step.Claim? && step.pod == p)
  }

  ghost predicate NoGrants(f: Fleet, p: PodId) {
    forall s :: f.granted[Token(p, s)] == 0
  }

  /** After Stop, and whatever happens then short of new claims, every running heartbeat of the pod has been told
      to stop. */
  ghost predicate StopHolds(f: Fleet, p: PodId)
    requires p < |f.pods|
  {
    forall steps :: NoClaimsBy(steps, p) ==> Told(Run(Next(f, StopAll(p)), steps), p)
  }

  ghost predicate Told(f: Fleet, p: PodId) { p < |f.pods| && Leases.AllTold(f.pods[p]) }

  /** The pod leads nothing, nothing is granted to it, and its running heartbeats have been told to stop. */
  ghost predicate Stopped(f: Fleet, p: PodId) {
    Told(f, p) && f.pods[p].leases == map[] && NoGrants(f, p)
  }

  /** An event of a pod without leases other than a claim adds no running heartbeat. */
  lemma StoppedEvent(p: Leases.Pod, e: Leases.Event)
    requires Leases.AllTold(p) && p.leases == map[] && (e.Release? || e.StopAll? || e.Rebalance? || e.Renew?)
    ensures Leases.AllTold(Leases.Next(p, PERIOD, e)) && Leases.Next(p, PERIOD, e).leases == map[]
  {
    var q := Leases.Next(p, PERIOD, e);
    if e.Rebalance? {
      Leases.RebalancedIs(p, e.now, PERIOD, e.peerCount, e.total);
    }
  }

  lemma StaysStopped(f: Fleet, step: Step, p: PodId)
    requires Stopped(f, p) && !(step.Claim? && step.pod == p)
    ensures Stopped(Next(f, step), p)
  {
    PodStep(f, step, p);
    NothingGranted(f, step, p);
    var e := PodEvent(f, step, p);
    if e.Some? {
      StoppedEvent(f.pods[p], e.value);
    }
  }

  lemma NothingGranted(f: Fleet, step: Step, p: PodId)
    requires NoGrants(f, p) && !(step.Claim? && step.pod == p)
    ensures NoGrants(Next(f, step), p)
    ensures PodEvent(f, step, p).Some? ==> !PodEvent(f, step, p).value.Claim?
  {
    forall s ensures Next(f, step).granted[Token(p, s)] == 0 {
      assert f.granted[Token(p, s)] == 0;
    }
  }

  lemma {:induction false} RunStaysStopped(f: Fleet, steps: seq<Step>, p: PodId)
    requires Stopped(f, p) && NoClaimsBy(steps, p)
    ensures Told(Run(f, steps), p)
    decreases |steps|
  {
    if steps != [] {
      assert steps[0] in steps;
      StaysStopped(f, steps[0], p);
      RunStaysStopped(Next(f, steps[0]), steps[1..], p);
    }
  }

  /** A grant that is under way is installed after Stop as if nothing had happened. */
  lemma GrantOutlivesStop(f: Fleet, p: PodId, s: StreamId)
    requires p < |f.pods| && f.granted[Token(p, s)] != 0
    ensures !StopHolds(f, p)
  {
    var g := Next(f, StopAll(p));
    var h := Next(g, Install(p, s));
    var i := |g.pods[p].entries|;
    assert h.pods[p] == Leases.Claimed(g.pods[p], s, true);
    assert Leases.Live(h.pods[p].entries[i].heartbeat) && h.pods[p].entries[i].closes == 0;
    assert Run(h, []) == h && Run(g, [Install(p, s)]) == Run(h, []);
    assert NoClaimsBy([Install(p, s)], p);
  }

  /** Stop ends every heartbeat of a pod for good, as long as the pod makes no new claims, exactly if the pod has
      no orphan and no granted claim that it has yet to install. */
  lemma StopHoldsIffNoneMissed(f: Fleet, p: PodId)
    requires PodsOk(f) && p < |f.pods|
    ensures StopHolds(f, p) <==> Leases.NoOrphans(f.pods[p]) && NoGrants(f, p)
  {
    var g := Next(f, StopAll(p));
    Leases.StopReachesAllIffNoOrphans(f.pods[p]);
    PodStep(f, StopAll(p), p);
    assert Run(g, []) == g && NoClaimsBy([], p);
    if Leases.NoOrphans(f.pods[p]) && NoGrants(f, p) {
      assert g.granted == f.granted && Stopped(g, p);
      forall steps | NoClaimsBy(steps, p) ensures Told(Run(g, steps), p) {
        RunStaysStopped(g, steps, p);
      }
    } else if s :| f.granted[Token(p, s)] != 0 {
      GrantOutlivesStop(f, p, s);
    }
  }

  /** In a fleet without unsafe expiries only the granted claims matter. */
  lemma {:induction false} StopHoldsIffNoGrants(pods: nat, steps: seq<Step>, p: PodId)
    requires Safe(NewFleet(pods), steps) && p < |Run(NewFleet(pods), steps).pods|
    ensures StopHolds(Run(NewFleet(pods), steps), p) <==> NoGrants(Run(NewFleet(pods), steps), p)
  {
    NewFleetIsGood(pods);
    SafeRunKeepsPods(NewFleet(pods), steps);
    StopHoldsIffNoneMissed(Run(NewFleet(pods), steps), p);
  }
}
