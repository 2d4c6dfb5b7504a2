/** After an expiry a pod may go on leading a stream that the server has given to another: which of these leaders
    give way, and when every leader is the server's holder again. */
module Recovery {
  import opened StreamIds
  import opened Fleet
  import opened Stopping
  import opened Wrappers
  import Leases

  /** A pod leads a stream the server no longer gives it. */
  predicate Stale(f: Fleet, p: PodId, s: StreamId) {
    p < |f.pods| && s in f.pods[p].leases && !Backed(f, p, s)
  }

  /** The step may give the pod the stream or take it away, other than by a renewal or at the server. */
  predicate Touches(step: Step, p: PodId, s: StreamId) {
    match step
    case Claim(q, t) => q == p && t == s
    case ClaimReplyLost(q, t) => q == p && t == s
    case Install(q, t) => q == p && t == s
    case Release(q, t) => q == p && t == s
    case StopAll(q) => q == p
    case Rebalance(q, _, _, _) => q == p
    case _ => false
  }

  predicate Untouched(steps: seq<Step>, p: PodId, s: StreamId) {
    forall step :: step in steps ==> !Touches(step, p, s)
  }

  predicate IsRenewal(step: Step, p: PodId, i: nat) { step.Renew? && step.pod == p && step.entry == i }

  function RenewalsOf(steps: seq<Step>, p: PodId, i: nat): nat {
    if steps == [] then 0 else One(IsRenewal(steps[0], p, i)) + RenewalsOf(steps[1..], p, i)
  }

  /** The heartbeat of the entry a pod's lease on a stream points to. */
  function HeartbeatOf(f: Fleet, p: PodId, s: StreamId): Leases.Heartbeat
    requires p < |f.pods| && s in f.pods[p].leases && f.pods[p].leases[s] < |f.pods[p].entries|
  {
    f.pods[p].entries[f.pods[p].leases[s]].heartbeat
  }

  /** The event leaves the pod's lease on the stream alone, unless it renews that lease's own entry. */
  predicate Harmless(e: Leases.Event, s: StreamId) {
    match e
    case Claim(t, _) => t != s
    case Release(t) => t != s
    case Renew(_, _) => true
    case _ => false
  }

  lemma UntouchedIsHarmless(f: Fleet, step: Step, p: PodId, s: StreamId)
    requires !Touches(step, p, s)
    ensures PodEvent(f, step, p).Some? ==> Harmless(PodEvent(f, step, p).value, s)
    ensures !Backed(f, p, s) ==> !Backed(Next(f, step), p, s)
  {
  }

  lemma OtherEvent(p: Leases.Pod, e: Leases.Event, s: StreamId)
    requires Leases.Inv(p) && s in p.leases && Harmless(e, s) && !(e.Renew? && e.entry == p.leases[s])
    ensures var q, i := Leases.Next(p, PERIOD, e), p.leases[s];
            s in q.leases && q.leases[s] == i < |q.entries| && q.entries[i] == p.entries[i]
  {
  }

  lemma OwnRenewal(p: Leases.Pod, s: StreamId)
    requires Leases.Inv(p) && s in p.leases
    ensures var i := p.leases[s];
            var q, heartbeat := Leases.Renewed(p, i, false), Leases.Beat(p.entries[i].heartbeat, false);
            if heartbeat.Lost? then s !in q.leases
            else s in q.leases && q.leases[s] == i && q.entries[i].heartbeat == heartbeat
  {
    assert Leases.EntryOk(p, p.leases[s]);
  }

  /** Untouched, a stale lease changes only by the renewals of its own entry, and those fail. */
  lemma UntouchedStep(f: Fleet, step: Step, p: PodId, s: StreamId)
    requires PodsOk(f) && Stale(f, p, s) && !Touches(step, p, s)
    ensures var g, i := Next(f, step), f.pods[p].leases[s];
            var heartbeat := if IsRenewal(step, p, i) then Leases.Beat(HeartbeatOf(f, p, s), false)
                             else HeartbeatOf(f, p, s);
            && PodsOk(g) && !Backed(g, p, s) && p < |g.pods|
            && if heartbeat.Lost? then s !in g.pods[p].leases
               else s in g.pods[p].leases && g.pods[p].leases[s] == i && HeartbeatOf(g, p, s) == heartbeat
  {
    var pod := f.pods[p];
    StepKeepsPodsOk(f, step);
    PodStep(f, step, p);
    UntouchedIsHarmless(f, step, p, s);
    var e := PodEvent(f, step, p);
    assert Leases.EntryOk(pod, pod.leases[s]);
    if IsRenewal(step, p, pod.leases[s]) {
      assert e == Some(Leases.Renew(pod.leases[s], false));
      OwnRenewal(pod, s);
    } else if e.Some? {
      OtherEvent(pod, e.value, s);
    }
  }

  lemma GoneEvent(p: Leases.Pod, e: Leases.Event, s: StreamId)
    requires s !in p.leases && Harmless(e, s)
    ensures s !in Leases.Next(p, PERIOD, e).leases
  {
  }

  lemma {:induction false} GoneStays(f: Fleet, steps: seq<Step>, p: PodId, s: StreamId)
    requires p < |f.pods| && s !in f.pods[p].leases && Untouched(steps, p, s)
    ensures p < |Run(f, steps).pods| && s !in Run(f, steps).pods[p].leases
    decreases |steps|
  {
    if steps != [] {
      var step := steps[0];
      assert step in steps;
      PodStep(f, step, p);
      UntouchedIsHarmless(f, step, p, s);
      if PodEvent(f, step, p).Some? {
        GoneEvent(f.pods[p], PodEvent(f, step, p).value, s);
      }
      GoneStays(Next(f, step), steps[1..], p, s);
    }
  }

  /** A stale lease whose initial renewal has failed or is still to fail outlives every run that does not touch
      it; one whose heartbeat ticks ends with its second failed tick. */
  lemma {:induction false} StaleLeaseOverRun(f: Fleet, steps: seq<Step>, p: PodId, s: StreamId)
    requires PodsOk(f) && Stale(f, p, s) && Untouched(steps, p, s)
    ensures var g := Run(f, steps);
            var heartbeat, n := HeartbeatOf(f, p, s), RenewalsOf(steps, p, f.pods[p].leases[s]);
            && p < |g.pods| && !Backed(g, p, s)
            && (s in g.pods[p].leases <==> (heartbeat.Ticking? ==> heartbeat.failures + n < 2))
    decreases |steps|
  {
    assert Leases.EntryOk(f.pods[p], f.pods[p].leases[s]);
    if steps != [] {
      var g := Next(f, steps[0]);
      assert steps[0] in steps;
      UntouchedStep(f, steps[0], p, s);
      if s in g.pods[p].leases {
        StaleLeaseOverRun(g, steps[1..], p, s);
      } else {
        GoneStays(g, steps[1..], p, s);
        NeverBacked(g, steps[1..], p, s);
      }
    }
  }

  lemma {:induction false} NeverBacked(f: Fleet, steps: seq<Step>, p: PodId, s: StreamId)
    requires !Backed(f, p, s) && Untouched(steps, p, s)
    ensures !Backed(Run(f, steps), p, s)
    decreases |steps|
  {
    if steps != [] {
      assert steps[0] in steps;
      UntouchedIsHarmless(f, steps[0], p, s);
      NeverBacked(Next(f, steps[0]), steps[1..], p, s);
    }
  }

  /** The heartbeat of a stale lease, if it is ticking, has failed twice by the end of the run. */
  predicate TicksOut(f: Fleet, steps: seq<Step>, p: PodId, s: StreamId)
    requires PodsOk(f) && Stale(f, p, s)
  {
    var heartbeat := HeartbeatOf(f, p, s);
    heartbeat.Ticking? ==> 2 <= heartbeat.failures + RenewalsOf(steps, p, f.pods[p].leases[s])
  }

  /** A stale lease that nothing but its heartbeat touches ends exactly if the heartbeat is ticking: one whose
      initial renewal fails leaves a second leader for good. */
  lemma StaleLeaseEndsIffTicking(f: Fleet, steps: seq<Step>, p: PodId, s: StreamId)
    requires PodsOk(f) && Stale(f, p, s) && Untouched(steps, p, s) && TicksOut(f, steps, p, s)
    ensures p < |Run(f, steps).pods|
    ensures s !in Run(f, steps).pods[p].leases <==> HeartbeatOf(f, p, s).Ticking?
  {
    StaleLeaseOverRun(f, steps, p, s);
  }

  // ---------- grants that lapse before they are installed ----------

  /** A claim was granted, the server has since forgotten it, and the pod is yet to install it. */
  predicate Lapsed(f: Fleet, p: PodId, s: StreamId) { f.granted[Token(p, s)] != 0 && !Backed(f, p, s) }

  /** Step k installs the grant, and no other step touches the stream. */
  predicate InstalledAt(steps: seq<Step>, p: PodId, s: StreamId, k: nat) {
    k < |steps| && steps[k] == Install(p, s) && Untouched(steps[..k], p, s) && Untouched(steps[k + 1..], p, s)
  }

  lemma UntouchedGrant(f: Fleet, step: Step, p: PodId, s: StreamId)
    requires PodsOk(f) && Lapsed(f, p, s) && !Touches(step, p, s)
    ensures PodsOk(Next(f, step)) && Lapsed(Next(f, step), p, s)
  {
    StepKeepsPodsOk(f, step);
    UntouchedIsHarmless(f, step, p, s);
  }

  lemma LapsedInstall(f: Fleet, p: PodId, s: StreamId)
    requires PodsOk(f) && Lapsed(f, p, s) && p < |f.pods|
    ensures var g := Next(f, Install(p, s));
            PodsOk(g) && Stale(g, p, s) && HeartbeatOf(g, p, s) == Leases.Starting
  {
    StepKeepsPodsOk(f, Install(p, s));
    assert Next(f, Install(p, s)).pods[p] == Leases.Claimed(f.pods[p], s, true);
  }

  /** Installing a lapsed grant makes a leader that the server does not back, for good: its initial renewal can
      only fail, and then nothing ends the lease. */
  lemma {:induction false} LapsedGrantLeads(f: Fleet, steps: seq<Step>, p: PodId, s: StreamId, k: nat)
    requires PodsOk(f) && Lapsed(f, p, s) && p < |f.pods| && InstalledAt(steps, p, s, k)
    ensures Stale(Run(f, steps), p, s)
    decreases |steps|
  {
    var g := Next(f, steps[0]);
    if k == 0 {
      LapsedInstall(f, p, s);
      StaleLeaseOverRun(g, steps[1..], p, s);
    } else {
      var rest := steps[1..];
      assert steps[..k][0] in steps[..k];
      assert rest[..k - 1] == steps[..k][1..] && rest[k..] == steps[k + 1..];
      UntouchedGrant(f, steps[0], p, s);
      StepKeepsPodsOk(f, steps[0]);
      LapsedGrantLeads(g, rest, p, s, k - 1);
    }
  }

  // ---------- fleets in which anything may expire ----------

  /** The pod has at most one interest in the stream; any of them may be stale. */
  ghost predicate InterestOk(f: Fleet, q: PodId, s: StreamId) {
    && Interests(f, q, s) <= 1
    && (f.granted[Token(q, s)] != 0 ==> q < |f.pods|)
    && (s in f.holder ==> f.holder[s] < |f.pods|)
  }

  ghost predicate Sound(f: Fleet) {
    PodsOk(f) && forall q: PodId, s :: InterestOk(f, q, s)
  }

  ghost predicate GrantsBacked(f: Fleet) {
    forall p: PodId, s :: !Lapsed(f, p, s)
  }

  /** A pod claims no stream it still leads, awaits or is releasing. */
  predicate CarefulStep(f: Fleet, step: Step) { step.Claim? ==> Interests(f, step.pod, step.stream) == 0 }

  ghost predicate Careful(f: Fleet, steps: seq<Step>)
    decreases |steps|
  {
    steps != [] ==> CarefulStep(f, steps[0]) && Careful(Next(f, steps[0]), steps[1..])
  }

  /** A careful step in which nothing expires. */
  predicate CalmStep(f: Fleet, step: Step) { !step.Expire? && CarefulStep(f, step) }

  ghost predicate Calm(f: Fleet, steps: seq<Step>)
    decreases |steps|
  {
    steps != [] ==> CalmStep(f, steps[0]) && Calm(Next(f, steps[0]), steps[1..])
  }

  /** A lease that survives an event keeps its entry, whose heartbeat changes only by its own renewal. */
  lemma SurvivingLease(p: Leases.Pod, e: Leases.Event, s: StreamId)
    requires Leases.Inv(p) && s in p.leases && s in Leases.Next(p, PERIOD, e).leases
    requires e.Claim? ==> e.stream != s
    requires !e.Refresh? && !e.SeeStop?
    ensures var q, i := Leases.Next(p, PERIOD, e), p.leases[s];
            && q.leases[s] == i < |q.entries|
            && q.entries[i].heartbeat
               == if e.Renew? && e.entry == i then Leases.Beat(p.entries[i].heartbeat, e.ok) else p.entries[i].heartbeat
  {
    assert Leases.EntryOk(p, p.leases[s]);
  }

  lemma ShedInterests(f: Fleet, pod: PodId, p: Leases.Pod, streams: set<StreamId>, q: PodId, s: StreamId)
    requires pod < |f.pods| && streams <= f.pods[pod].leases.Keys && p.leases == f.pods[pod].leases - streams
    ensures Interests(Shed(f, pod, p, streams), q, s) == Interests(f, q, s)
  {
    assert Token(q, s) in Tokens(pod, streams) <==> q == pod && s in streams;
  }

  /** The steps that shed leases turn each into a release under way. */
  lemma ShedStep(f: Fleet, step: Step, q: PodId, s: StreamId)
    requires step.Release? || step.StopAll? || step.Rebalance?
    ensures Interests(Next(f, step), q, s) == Interests(f, q, s)
    ensures Next(f, step).granted == f.granted && Next(f, step).holder == f.holder
  {
    var g := Next(f, step);
    match step {
      case Release(pod, stream) => if g != f { ShedInterests(f, pod, g.pods[pod], {stream}, q, s); }
      case StopAll(pod) => if pod < |f.pods| { ShedInterests(f, pod, g.pods[pod], f.pods[pod].leases.Keys, q, s); }
      case Rebalance(pod, now, peerCount, total) =>
        if pod < |f.pods| {
          Leases.RebalancedIs(f.pods[pod], now, PERIOD, peerCount, total);
          var released := Leases.Rebalanced(f.pods[pod], now, PERIOD, peerCount, total).1;
          ShedInterests(f, pod, g.pods[pod], released, q, s);
        }
      case _ =>
    }
  }

  lemma ClaimStep(f: Fleet, step: Step, q: PodId, s: StreamId)
    requires Sound(f) && CarefulStep(f, step) && (step.Claim? || step.ClaimReplyLost? || step.Install?)
    ensures InterestOk(Next(f, step), q, s)
  {
    assert InterestOk(f, q, s) && InterestOk(f, step.pod, step.stream);
  }

  lemma RenewalStep(f: Fleet, step: Step, q: PodId, s: StreamId)
    requires Sound(f) && step.Renew?
    ensures InterestOk(Next(f, step), q, s)
  {
    assert InterestOk(f, q, s);
  }

  lemma ServerStep(f: Fleet, step: Step, q: PodId, s: StreamId)
    requires Sound(f) && (step.ServerRelease? || step.ReleaseFails? || step.Expire?)
    ensures InterestOk(Next(f, step), q, s)
  {
    assert InterestOk(f, q, s);
  }

  lemma CarefulKeepsInterests(f: Fleet, step: Step, q: PodId, s: StreamId)
    requires Sound(f) && CarefulStep(f, step) && |Next(f, step).pods| == |f.pods|
    ensures InterestOk(Next(f, step), q, s)
  {
    assert InterestOk(f, q, s);
    match step {
      case Claim(_, _) => ClaimStep(f, step, q, s);
      case ClaimReplyLost(_, _) => ClaimStep(f, step, q, s);
      case Install(_, _) => ClaimStep(f, step, q, s);
      case Renew(_, _, _) => RenewalStep(f, step, q, s);
      case Release(_, _) => ShedStep(f, step, q, s);
      case StopAll(_) => ShedStep(f, step, q, s);
      case Rebalance(_, _, _, _) => ShedStep(f, step, q, s);
      case _ => ServerStep(f, step, q, s);
    }
  }

  lemma CarefulKeepsSound(f: Fleet, step: Step)
    requires Sound(f) && CarefulStep(f, step)
    ensures Sound(Next(f, step))
  {
    var g := Next(f, step);
    StepKeepsPodsOk(f, step);
    forall q: PodId, s ensures InterestOk(g, q, s) {
      CarefulKeepsInterests(f, step, q, s);
    }
  }

  lemma {:induction false} CarefulRunKeepsSound(f: Fleet, steps: seq<Step>)
    requires Sound(f) && Careful(f, steps)
    ensures Sound(Run(f, steps))
    decreases |steps|
  {
    if steps != [] {
      CarefulKeepsSound(f, steps[0]);
      CarefulRunKeepsSound(Next(f, steps[0]), steps[1..]);
    }
  }

  /** Whatever expires and whenever, a fleet whose pods claim no stream they still lead, await or are releasing is
      sound. */
  lemma {:induction false} CarefulRunIsSound(pods: nat, steps: seq<Step>)
    requires Careful(NewFleet(pods), steps)
    ensures Sound(Run(NewFleet(pods), steps))
  {
    NewFleetIsGood(pods);
    var f := NewFleet(pods);
    forall q: PodId, s ensures InterestOk(f, q, s) {
      assert Interests(f, q, s) <= 1;
    }
    CarefulRunKeepsSound(f, steps);
  }

  lemma BackedGrantStays(f: Fleet, step: Step, p: PodId, s: StreamId)
    requires Sound(f) && CalmStep(f, step) && !Lapsed(f, p, s)
    ensures !Lapsed(Next(f, step), p, s)
  {
    assert InterestOk(f, p, s);
    if step.Release? || step.StopAll? || step.Rebalance? {
      ShedStep(f, step, p, s);
    } else {
      GrantStays(f, step, p, s);
    }
  }

  lemma GrantStays(f: Fleet, step: Step, p: PodId, s: StreamId)
    requires InterestOk(f, p, s) && CalmStep(f, step) && !Lapsed(f, p, s)
    requires !step.Release? && !step.StopAll? && !step.Rebalance?
    ensures !Lapsed(Next(f, step), p, s)
  {
    match step {
      case Claim(q, t) => ClaimLapsesNothing(f, q, t, p, s);
      case ClaimReplyLost(q, t) => ClaimLapsesNothing(f, q, t, p, s);
      case Install(q, t) => InstallLapsesNothing(f, q, t, p, s);
      case Renew(q, entry, reachable) => RenewLapsesNothing(f, q, entry, reachable, p, s);
      case ServerRelease(q, t) => ServerLapsesNothing(f, q, t, p, s);
      case ReleaseFails(q, t) => ServerLapsesNothing(f, q, t, p, s);
      case _ =>
    }
  }

  lemma ClaimLapsesNothing(f: Fleet, q: PodId, t: StreamId, p: PodId, s: StreamId)
    requires !Lapsed(f, p, s)
    ensures !Lapsed(Next(f, Claim(q, t)), p, s) && !Lapsed(Next(f, ClaimReplyLost(q, t)), p, s)
  {
  }

  lemma InstallLapsesNothing(f: Fleet, q: PodId, t: StreamId, p: PodId, s: StreamId)
    requires !Lapsed(f, p, s)
    ensures !Lapsed(Next(f, Install(q, t)), p, s)
  {
  }

  lemma RenewLapsesNothing(f: Fleet, q: PodId, entry: nat, reachable: bool, p: PodId, s: StreamId)
    requires !Lapsed(f, p, s)
    ensures !Lapsed(Next(f, Renew(q, entry, reachable)), p, s)
  {
  }

  /** A release call under way and a grant would be two interests. */
  lemma ServerLapsesNothing(f: Fleet, q: PodId, t: StreamId, p: PodId, s: StreamId)
    requires InterestOk(f, p, s) && !Lapsed(f, p, s)
    ensures !Lapsed(Next(f, ServerRelease(q, t)), p, s) && !Lapsed(Next(f, ReleaseFails(q, t)), p, s)
  {
  }

  lemma CalmKeepsGrantsBacked(f: Fleet, step: Step)
    requires Sound(f) && CalmStep(f, step) && GrantsBacked(f)
    ensures GrantsBacked(Next(f, step))
  {
    forall p: PodId, s ensures !Lapsed(Next(f, step), p, s) {
      BackedGrantStays(f, step, p, s);
    }
  }

  // ---------- when every leader is the holder again ----------

  lemma NewLeaseIsBacked(f: Fleet, step: Step, p: PodId, s: StreamId)
    requires Sound(f) && !Lapsed(f, p, s) && p < |f.pods| && s !in f.pods[p].leases
    ensures p < |Next(f, step).pods|
    ensures s in Next(f, step).pods[p].leases ==> step == Install(p, s) && Backed(Next(f, step), p, s)
  {
    assert InterestOk(f, p, s);
    PodStep(f, step, p);
    var e := PodEvent(f, step, p);
    if e.Some? && Harmless(e.value, s) {
      GoneEvent(f.pods[p], e.value, s);
    }
  }

  lemma BackedLeaseStays(f: Fleet, step: Step, p: PodId, s: StreamId)
    requires InterestOk(f, p, s) && CalmStep(f, step) && p < |f.pods| && s in f.pods[p].leases && Backed(f, p, s)
    ensures Backed(Next(f, step), p, s)
  {
  }

  /** A lease that is stale after a calm step was stale before it. */
  lemma NoNewStale(f: Fleet, step: Step, p: PodId, s: StreamId)
    requires Sound(f) && GrantsBacked(f) && CalmStep(f, step) && Stale(Next(f, step), p, s)
    ensures Stale(f, p, s) && Token(p, s) !in f.granted
  {
    assert InterestOk(f, p, s);
    StepKeepsPodsOk(f, step);
    if s !in f.pods[p].leases {
      NewLeaseIsBacked(f, step, p, s);
    } else if Backed(f, p, s) {
      BackedLeaseStays(f, step, p, s);
    }
  }

  /** Then it has the same entry, and its heartbeat has changed only by a failed renewal. */
  lemma StaleBefore(f: Fleet, step: Step, p: PodId, s: StreamId)
    requires Sound(f) && GrantsBacked(f) && CalmStep(f, step) && Stale(Next(f, step), p, s)
    ensures Stale(f, p, s) && PodsOk(Next(f, step))
    ensures var g, i := Next(f, step), f.pods[p].leases[s];
            && g.pods[p].leases[s] == i
            && HeartbeatOf(g, p, s) == if IsRenewal(step, p, i) then Leases.Beat(HeartbeatOf(f, p, s), false)
                                       else HeartbeatOf(f, p, s)
  {
    NoNewStale(f, step, p, s);
    StepKeepsPodsOk(f, step);
    PodStep(f, step, p);
    var e := PodEvent(f, step, p);
    if e.Some? {
      SurvivingLease(f.pods[p], e.value, s);
    }
  }

  /** A lease that is stale after a calm run was stale all along, and a ticking heartbeat has seen fewer than two
      failures. */
  lemma {:induction false} StaleAllAlong(f: Fleet, steps: seq<Step>, p: PodId, s: StreamId)
    requires Sound(f) && GrantsBacked(f) && Calm(f, steps) && Stale(Run(f, steps), p, s)
    ensures Stale(f, p, s)
    ensures var heartbeat, n := HeartbeatOf(f, p, s), RenewalsOf(steps, p, f.pods[p].leases[s]);
            heartbeat.Ticking? ==> heartbeat.failures + n < 2
    decreases |steps|
  {
    if steps == [] {
      assert Leases.EntryOk(f.pods[p], f.pods[p].leases[s]);
    } else {
      var g := Next(f, steps[0]);
      CarefulKeepsSound(f, steps[0]);
      CalmKeepsGrantsBacked(f, steps[0]);
      StaleAllAlong(g, steps[1..], p, s);
      StaleBefore(f, steps[0], p, s);
      assert Leases.EntryOk(g.pods[p], g.pods[p].leases[s]);
    }
  }

  ghost predicate StaleAreTicking(f: Fleet)
    requires PodsOk(f)
  {
    forall p: PodId, s :: Stale(f, p, s) ==> HeartbeatOf(f, p, s).Ticking?
  }

  /** By the end of the run the heartbeat of a stale lease, if it is ticking, has failed twice; if it is not, the
      run does not touch the lease. */
  predicate LeaseSettles(f: Fleet, steps: seq<Step>, p: PodId, s: StreamId)
    requires PodsOk(f)
  {
    Stale(f, p, s) ==> TicksOut(f, steps, p, s) && (HeartbeatOf(f, p, s).Ticking? || Untouched(steps, p, s))
  }

  /** A lapsed grant is installed in the run, which does not otherwise touch it. */
  ghost predicate GrantSettles(f: Fleet, steps: seq<Step>, p: PodId, s: StreamId) {
    Lapsed(f, p, s) ==> exists k :: InstalledAt(steps, p, s, k)
  }

  ghost predicate Settles(f: Fleet, steps: seq<Step>)
    requires PodsOk(f)
  {
    && (forall p: PodId, s :: LeaseSettles(f, steps, p, s))
    && (forall p: PodId, s :: GrantSettles(f, steps, p, s))
  }

  lemma NoneStaleIfTicking(f: Fleet, steps: seq<Step>)
    requires Sound(f) && Calm(f, steps) && Settles(f, steps) && StaleAreTicking(f) && GrantsBacked(f)
    ensures LeadersHold(Run(f, steps))
  {
    var g := Run(f, steps);
    forall p: PodId, s | p < |g.pods| && s in g.pods[p].leases ensures Backed(g, p, s) {
      assert LeaseSettles(f, steps, p, s);
      if !Backed(g, p, s) {
        StaleAllAlong(f, steps, p, s);
      }
    }
  }

  lemma StaleIsNoHolder(f: Fleet, p: PodId, s: StreamId)
    requires Stale(f, p, s)
    ensures !LeadersHold(f)
  {
  }

  lemma DeadLeaseLeads(f: Fleet, steps: seq<Step>, p: PodId, s: StreamId)
    requires PodsOk(f) && Stale(f, p, s) && LeaseSettles(f, steps, p, s) && !HeartbeatOf(f, p, s).Ticking?
    ensures !LeadersHold(Run(f, steps))
  {
    StaleLeaseOverRun(f, steps, p, s);
    StaleIsNoHolder(Run(f, steps), p, s);
  }

  lemma SomeStaleIfNotTicking(f: Fleet, steps: seq<Step>)
    requires PodsOk(f) && Settles(f, steps) && !StaleAreTicking(f)
    ensures !LeadersHold(Run(f, steps))
  {
    var p: PodId, s :| Stale(f, p, s) && !HeartbeatOf(f, p, s).Ticking?;
    assert LeaseSettles(f, steps, p, s);
    DeadLeaseLeads(f, steps, p, s);
  }

  lemma SomeStaleIfLapsed(f: Fleet, steps: seq<Step>)
    requires Sound(f) && Settles(f, steps) && !GrantsBacked(f)
    ensures !LeadersHold(Run(f, steps))
  {
    var p: PodId, s :| Lapsed(f, p, s);
    assert InterestOk(f, p, s) && GrantSettles(f, steps, p, s);
    var k :| InstalledAt(steps, p, s, k);
    LapsedGrantLeads(f, steps, p, s, k);
    StaleIsNoHolder(Run(f, steps), p, s);
  }

  /** After any expiries, once the run has settled, every leader is the holder again, and so no stream has two
      leaders, exactly if every stale lease had a ticking heartbeat and no grant under way had lapsed. */
  lemma LeadersHoldAgainIff(f: Fleet, steps: seq<Step>)
    requires Sound(f) && Calm(f, steps) && Settles(f, steps)
    ensures LeadersHold(Run(f, steps)) <==> StaleAreTicking(f) && GrantsBacked(f)
    ensures LeadersHold(Run(f, steps)) ==> Exclusive(Run(f, steps))
  {
    if !StaleAreTicking(f) {
      SomeStaleIfNotTicking(f, steps);
    } else if !GrantsBacked(f) {
      SomeStaleIfLapsed(f, steps);
    } else {
      NoneStaleIfTicking(f, steps);
      HoldersExclude(Run(f, steps));
    }
  }
}
