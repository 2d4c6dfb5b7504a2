/** How long a stream stays with a pod: a lease the server backs lasts until two renewals in a row do not get through,
    and a stream whose claim or release call got lost stays with nobody until it expires. */
module Tenure {
  import opened StreamIds
  import opened Fleet
  import opened Stopping
  import opened Recovery
  import Leases

  // ---------- leases the server backs ----------

  /** Which of the renewals of a pod's entry reach the server, in order. */
  function Reached(steps: seq<Step>, p: PodId, i: nat): seq<bool> {
    if steps == [] then []
    else (if IsRenewal(steps[0], p, i) then [steps[0].reachable] else []) + Reached(steps[1..], p, i)
  }

  /** The fleet is good, and the pod's lease is still that of entry i with this heartbeat, or gone if that is lost. */
  ghost predicate Carries(f: Fleet, p: PodId, s: StreamId, i: nat, heartbeat: Leases.Heartbeat) {
    && Good(f) && PodsOk(f) && p < |f.pods|
    && if heartbeat.Lost? then s !in f.pods[p].leases
       else s in f.pods[p].leases && f.pods[p].leases[s] == i && HeartbeatOf(f, p, s) == heartbeat
  }

  lemma OwnBeat(p: Leases.Pod, s: StreamId, ok: bool)
    requires Leases.Inv(p) && s in p.leases
    ensures var i := p.leases[s];
            var q, heartbeat := Leases.Renewed(p, i, ok), Leases.Beat(p.entries[i].heartbeat, ok);
            if heartbeat.Lost? then s !in q.leases
            else s in q.leases && q.leases[s] == i && q.entries[i].heartbeat == heartbeat
  {
    assert Leases.EntryOk(p, p.leases[s]);
  }

  /** Untouched, a backed lease changes only by the renewals of its own entry, which succeed when they get through. */
  lemma BackedStep(f: Fleet, step: Step, p: PodId, s: StreamId)
    requires Good(f) && PodsOk(f) && SafeStep(f, step) && !Touches(step, p, s)
    requires p < |f.pods| && s in f.pods[p].leases
    ensures var i := f.pods[p].leases[s];
            Carries(Next(f, step), p, s, i,
                    if IsRenewal(step, p, i) then Leases.Beat(HeartbeatOf(f, p, s), step.reachable)
                    else HeartbeatOf(f, p, s))
  {
    var pod := f.pods[p];
    assert Backed(f, p, s) by {
      assert Interests(f, p, s) == 1 by { assert Interests(f, p, s) <= 1; }
    }
    StepKeepsGood(f, step);
    StepKeepsPodsOk(f, step);
    PodStep(f, step, p);
    UntouchedIsHarmless(f, step, p, s);
    var e := PodEvent(f, step, p);
    assert Leases.EntryOk(pod, pod.leases[s]);
    if IsRenewal(step, p, pod.leases[s]) {
      assert e.value == Leases.Renew(pod.leases[s], step.reachable);
      OwnBeat(pod, s, step.reachable);
    } else if e.Some? {
      OtherEvent(pod, e.value, s);
    }
  }

  lemma {:induction false} BackedLeaseOverRun(f: Fleet, steps: seq<Step>, p: PodId, s: StreamId)
    requires Good(f) && PodsOk(f) && Safe(f, steps) && Untouched(steps, p, s)
    requires p < |f.pods| && s in f.pods[p].leases
    ensures var i := f.pods[p].leases[s];
            Carries(Run(f, steps), p, s, i, Leases.Beats(HeartbeatOf(f, p, s), Reached(steps, p, i)))
    decreases |steps|
  {
    var i, heartbeat := f.pods[p].leases[s], HeartbeatOf(f, p, s);
    assert Leases.EntryOk(f.pods[p], i);
    if steps != [] {
      var step, rest := steps[0], steps[1..];
      assert step in steps;
      BackedStep(f, step, p, s);
      var next := if IsRenewal(step, p, i) then Leases.Beat(heartbeat, step.reachable) else heartbeat;
      assert Leases.Beats(heartbeat, Reached(steps, p, i)) == Leases.Beats(next, Reached(rest, p, i)) by {
        FirstBeat(heartbeat, steps, p, i);
      }
      if next.Lost? {
        LostStays(Next(f, step), rest, p, s, i);
      } else {
        BackedLeaseOverRun(Next(f, step), rest, p, s);
      }
    }
  }

  lemma FirstBeat(heartbeat: Leases.Heartbeat, steps: seq<Step>, p: PodId, i: nat)
    requires steps != []
    ensures Leases.Beats(heartbeat, Reached(steps, p, i))
         == Leases.Beats(if IsRenewal(steps[0], p, i) then Leases.Beat(heartbeat, steps[0].reachable) else heartbeat,
                         Reached(steps[1..], p, i))
  {
    var rest := Reached(steps[1..], p, i);
    if IsRenewal(steps[0], p, i) {
      assert ([steps[0].reachable] + rest)[1..] == rest;
    } else {
      assert [] + rest == rest;
    }
  }

  lemma LostStays(f: Fleet, steps: seq<Step>, p: PodId, s: StreamId, i: nat)
    requires Carries(f, p, s, i, Leases.Lost) && Safe(f, steps) && Untouched(steps, p, s)
    ensures Carries(Run(f, steps), p, s, i, Leases.Beats(Leases.Lost, Reached(steps, p, i)))
  {
    Leases.DeadIsFinal(Leases.Lost, Reached(steps, p, i));
    GoneStays(f, steps, p, s);
    SafeRunKeepsGood(f, steps);
    RunKeepsPodsOk(f, steps);
  }

  lemma {:induction false} RunKeepsPodsOk(f: Fleet, steps: seq<Step>)
    requires PodsOk(f)
    ensures PodsOk(Run(f, steps))
    decreases |steps|
  {
    if steps != [] {
      StepKeepsPodsOk(f, steps[0]);
      RunKeepsPodsOk(Next(f, steps[0]), steps[1..]);
    }
  }

  /** In a run without unsafe expiries a pod keeps a stream it neither releases nor sheds, and stays its holder, unless
      two renewals in a row do not get through; then it has given the stream up by the end of the run. */
  lemma {:induction false} KeptIffRenewed(f: Fleet, steps: seq<Step>, p: PodId, s: StreamId)
    requires Good(f) && PodsOk(f) && Safe(f, steps) && Untouched(steps, p, s)
    requires p < |f.pods| && s in f.pods[p].leases && HeartbeatOf(f, p, s) == Leases.Ticking(0)
    ensures var g := Run(f, steps);
            && PodsOk(g) && p < |g.pods|
            && (s in g.pods[p].leases <==> !Leases.TwoFailuresInARow(Reached(steps, p, f.pods[p].leases[s])))
            && (s in g.pods[p].leases ==> Backed(g, p, s) && Leases.Live(HeartbeatOf(g, p, s)))
  {
    BackedLeaseOverRun(f, steps, p, s);
    Leases.LostMeansTwoFailures(0, Reached(steps, p, f.pods[p].leases[s]));
    GoodIsExclusive(Run(f, steps));
  }

  // ---------- lost calls ----------

  /** A claim whose reply, or a release that itself gets lost. */
  predicate LosesCall(f: Fleet, step: Step, p: PodId, s: StreamId) {
    || (step == ClaimReplyLost(p, s) && p < |f.pods| && s !in f.holder)
    || (step == ReleaseFails(p, s) && Token(p, s) in f.releasing)
  }

  /** The server has given the stream to the pod, and nobody knows. */
  ghost predicate Forgotten(f: Fleet, p: PodId, s: StreamId) {
    Good(f) && Backed(f, p, s) && NoInterest(f, s)
  }

  lemma NoInterestAnywhere(f: Fleet, s: StreamId, q: PodId)
    requires Good(f) && NoInterest(f, s)
    ensures Interests(f, q, s) == 0
  {
    assert Interests(f, q, s) <= 1;
  }

  lemma LostCallForgets(f: Fleet, step: Step, p: PodId, s: StreamId)
    requires Good(f) && LosesCall(f, step, p, s)
    ensures Forgotten(Next(f, step), p, s)
  {
    var g := Next(f, step);
    StepKeepsGood(f, step);
    assert Interests(f, p, s) <= 1;
    forall q: PodId ensures Interests(g, q, s) == 0 {
      assert Interests(f, q, s) <= 1;
    }
  }

  lemma NobodyTurnsUp(f: Fleet, step: Step, q: PodId, s: StreamId)
    requires Interests(f, q, s) == 0 && s in f.holder && !step.Expire?
    ensures Interests(Next(f, step), q, s) == 0
  {
    if step.Release? || step.StopAll? || step.Rebalance? {
      ShedStep(f, step, q, s);
    }
  }

  lemma StaysHeld(f: Fleet, step: Step, p: PodId, s: StreamId)
    requires Backed(f, p, s) && f.releasing[Token(p, s)] == 0 && !step.Expire?
    ensures Backed(Next(f, step), p, s)
  {
  }

  lemma ForgottenStep(f: Fleet, step: Step, p: PodId, s: StreamId)
    requires Forgotten(f, p, s) && !step.Expire?
    ensures Forgotten(Next(f, step), p, s)
  {
    StepKeepsGood(f, step);
    forall q: PodId ensures Interests(f, q, s) == 0 && Interests(Next(f, step), q, s) == 0 {
      NoInterestAnywhere(f, s, q);
      NobodyTurnsUp(f, step, q, s);
    }
    assert Interests(f, p, s) == 0;
    StaysHeld(f, step, p, s);
  }

  lemma {:induction false} ForgottenRun(f: Fleet, steps: seq<Step>, p: PodId, s: StreamId)
    requires Forgotten(f, p, s) && NoExpiry(steps)
    ensures Forgotten(Run(f, steps), p, s)
    decreases |steps|
  {
    if steps != [] {
      assert steps[0] in steps;
      ForgottenStep(f, steps[0], p, s);
      ForgottenRun(Next(f, steps[0]), steps[1..], p, s);
    }
  }

  /** The server refuses the stream to every pod, and none leads it. */
  ghost predicate Blocked(f: Fleet, s: StreamId) {
    forall q: PodId :: Next(f, Claim(q, s)) == f && (q < |f.pods| ==> s !in f.pods[q].leases)
  }

  /** Any pod can come to lead the stream. */
  ghost predicate Free(f: Fleet, s: StreamId) {
    forall q: PodId :: q < |f.pods| ==> Leads(Next(Next(f, Claim(q, s)), Install(q, s)), q, s)
  }

  predicate Leads(f: Fleet, q: PodId, s: StreamId) { q < |f.pods| && s in f.pods[q].leases && Backed(f, q, s) }

  /** Once the reply to a granted claim or a release call got lost, no run without an expiry gives the stream to anyone.
      An expiry is then safe and frees it. */
  lemma {:induction false} LostCallBlocksUntilExpiry(f: Fleet, step: Step, steps: seq<Step>, p: PodId, s: StreamId)
    requires Good(f) && LosesCall(f, step, p, s) && NoExpiry(steps)
    ensures var g := Run(Next(f, step), steps);
            Blocked(g, s) && Good(Next(g, Expire(s))) && Free(Next(g, Expire(s)), s)
  {
    LostCallForgets(f, step, p, s);
    ForgottenRun(Next(f, step), steps, p, s);
    var g := Run(Next(f, step), steps);
    StepKeepsGood(g, Expire(s));
    forall q: PodId | q < |g.pods| ensures s !in g.pods[q].leases {
      NoInterestAnywhere(g, s, q);
    }
    forall q: PodId | q < |g.pods| ensures Leads(Next(Next(Next(g, Expire(s)), Claim(q, s)), Install(q, s)), q, s) {
      ClaimedLeads(Next(g, Expire(s)), q, s);
    }
  }

  lemma ClaimedLeads(f: Fleet, q: PodId, s: StreamId)
    requires q < |f.pods| && s !in f.holder
    ensures Leads(Next(Next(f, Claim(q, s)), Install(q, s)), q, s)
  {
    var g := Next(f, Claim(q, s));
    assert Token(q, s) in g.granted && g.pods == f.pods;
    assert Next(g, Install(q, s)).pods[q] == Leases.Claimed(f.pods[q], s, true);
  }
}
