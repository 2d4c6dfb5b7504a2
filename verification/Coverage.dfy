/** From every good fleet, every stream can still come to be led without any pod going over its cap. */
module Coverage {
  import opened StreamIds
  import opened Fleet
  import Leases

  function CapOf(f: Fleet, streams: set<StreamId>): nat
    requires 0 < |f.pods|
  {
    Leases.Cap(|streams|, |f.pods|)
  }

  /** No pod leads more streams than its cap, so no pod's Rebalance releases anything. */
  ghost predicate Balanced(f: Fleet, streams: set<StreamId>) {
    0 < |f.pods| && forall p: PodId :: p < |f.pods| ==> |f.pods[p].leases| <= CapOf(f, streams)
  }

  /** Every stream is led by some pod. */
  ghost predicate Covered(f: Fleet, streams: set<StreamId>) {
    forall s :: s in streams ==> exists p: PodId :: p < |f.pods| && s in f.pods[p].leases
  }

  /** Some run from f without unsafe expiries ends with every stream led by exactly one pod and no pod over its
      cap. */
  ghost predicate CanCover(f: Fleet, streams: set<StreamId>) {
    exists steps ::
      && Safe(f, steps) && Good(Run(f, steps)) && |Run(f, steps).pods| == |f.pods|
      && Covered(Run(f, steps), streams) && Balanced(Run(f, steps), streams)
  }

  lemma BalancedReleasesNothing(f: Fleet, streams: set<StreamId>, p: PodId, now: int)
    requires Balanced(f, streams) && p < |f.pods|
    ensures Leases.Rebalanced(f.pods[p], now, PERIOD, |f.pods|, |streams|).1 == {}
  {
    Leases.RebalancedIs(f.pods[p], now, PERIOD, |f.pods|, |streams|);
  }

  lemma CanCoverLater(f: Fleet, step: Step, streams: set<StreamId>)
    requires SafeStep(f, step) && CanCover(Next(f, step), streams)
    ensures CanCover(f, streams)
  {
    var g := Next(f, step);
    var steps :| Safe(g, steps) && Good(Run(g, steps)) && |Run(g, steps).pods| == |g.pods|
                 && Covered(Run(g, steps), streams) && Balanced(Run(g, steps), streams);
    var all := [step] + steps;
    assert all[0] == step && all[1..] == steps;
    assert Run(f, all) == Run(g, steps) && Safe(f, all);
  }

  /** Nothing is under way, every held stream is led and wanted, and no pod is over its cap. */
  ghost predicate Settled(f: Fleet, streams: set<StreamId>) {
    && Good(f) && Balanced(f, streams) && f.holder.Keys <= streams
    && forall s :: s in f.holder ==> s in f.pods[f.holder[s]].leases
  }

  /** In a settled fleet a pod with room takes a free stream and the fleet stays settled. */
  lemma TakesFree(f: Fleet, streams: set<StreamId>, p: PodId, free: StreamId)
    requires Settled(f, streams) && p < |f.pods| && free in streams && free !in f.holder
    requires |f.pods[p].leases| < CapOf(f, streams)
    ensures var g := Next(Next(f, Claim(p, free)), Install(p, free));
            Settled(g, streams) && g.holder == f.holder[free := p] && |g.pods| == |f.pods|
  {
    var g := Next(f, Claim(p, free));
    StepKeepsGood(f, Claim(p, free));
    assert free !in f.pods[p].leases by {
      assert Interests(f, p, free) <= 1;
    }
    var h := Next(g, Install(p, free));
    StepKeepsGood(g, Install(p, free));
    assert h.pods[p] == Leases.Claimed(f.pods[p], free, true);
    assert |h.pods[p].leases| == |f.pods[p].leases| + 1;
  }

  /** From a settled fleet the streams that nobody holds can be taken one after the other. */
  lemma {:induction false} SettledCanCover(f: Fleet, streams: set<StreamId>)
    requires Settled(f, streams)
    ensures CanCover(f, streams)
    decreases streams - f.holder.Keys
  {
    if streams <= f.holder.Keys {
      assert Run(f, []) == f && Safe(f, []);
      assert Covered(f, streams);
    } else {
      var free :| free in streams && free !in f.holder;
      var p := UnheldStreamLeavesRoom(f, streams, free);
      TakesFree(f, streams, p, free);
      var g := Next(f, Claim(p, free));
      var h := Next(g, Install(p, free));
      assert free in streams - f.holder.Keys && free !in streams - h.holder.Keys;
      SettledCanCover(h, streams);
      CanCoverLater(g, Install(p, free), streams);
      CanCoverLater(f, Claim(p, free), streams);
    }
  }

  lemma InstallSettles(f: Fleet, p: PodId, s: StreamId)
    requires Good(f) && Token(p, s) in f.granted
    ensures var g := Next(f, Install(p, s));
            Good(g) && g.holder == f.holder && |g.granted| < |f.granted| && |g.pods| == |f.pods|
  {
    assert Interests(f, p, s) == 1 by {
      assert Interests(f, p, s) <= 1;
    }
    StepKeepsGood(f, Install(p, s));
  }

  /** A release that reaches the server frees the stream. */
  lemma ServerReleaseSettles(f: Fleet, p: PodId, s: StreamId)
    requires Good(f) && Token(p, s) in f.releasing
    ensures var g := Next(f, ServerRelease(p, s));
            Good(g) && g.holder.Keys < f.holder.Keys && |g.pods| == |f.pods|
  {
    assert Interests(f, p, s) == 1 by {
      assert Interests(f, p, s) <= 1;
    }
    StepKeepsGood(f, ServerRelease(p, s));
  }

  lemma ReleaseSettles(f: Fleet, p: PodId, s: StreamId)
    requires Good(f) && p < |f.pods| && s in f.pods[p].leases
    ensures var g := Next(Next(f, Release(p, s)), ServerRelease(p, s));
            Good(g) && g.holder.Keys < f.holder.Keys && |g.pods| == |f.pods|
  {
    var g := Next(f, Release(p, s));
    StepKeepsGood(f, Release(p, s));
    assert Token(p, s) in Tokens(p, {s});
    ServerReleaseSettles(g, p, s);
  }

  lemma ExpireSettles(f: Fleet, s: StreamId)
    requires Good(f) && s in f.holder && NoInterest(f, s)
    ensures var g := Next(f, Expire(s));
            Good(g) && g.holder.Keys < f.holder.Keys && |g.pods| == |f.pods|
  {
    StepKeepsGood(f, Expire(s));
  }

  /** A held stream that is not led has a grant or a release under way, or is of no interest to anyone. */
  lemma UnledIsUnderWay(f: Fleet, s: StreamId)
    requires Good(f) && s in f.holder && s !in f.pods[f.holder[s]].leases
    ensures || Token(f.holder[s], s) in f.granted
            || Token(f.holder[s], s) in f.releasing
            || NoInterest(f, s)
  {
    forall p: PodId | p < |f.pods| && p != f.holder[s] ensures Interests(f, p, s) == 0 {
      assert Interests(f, p, s) <= 1;
    }
  }

  /** Shedding never puts full coverage out of reach: from every good fleet some run without unsafe expiries
      ends with every stream led by exactly one pod and every pod at or under its cap, where no Rebalance
      releases anything. */
  lemma {:induction false} FullCoverageStaysPossible(f: Fleet, streams: set<StreamId>)
    requires Good(f) && 0 < |f.pods|
    ensures CanCover(f, streams)
    decreases f.holder.Keys, |f.granted|
  {
    if p: PodId, s :| p < |f.pods| && s in f.pods[p].leases
                      && (s !in streams || CapOf(f, streams) < |f.pods[p].leases|)
    {
      ReleaseSettles(f, p, s);
      var g := Next(f, Release(p, s));
      FullCoverageStaysPossible(Next(g, ServerRelease(p, s)), streams);
      CanCoverLater(g, ServerRelease(p, s), streams);
      CanCoverLater(f, Release(p, s), streams);
    } else if s :| s in f.holder && s !in f.pods[f.holder[s]].leases {
      var p := f.holder[s];
      UnledIsUnderWay(f, s);
      if Token(p, s) in f.granted {
        InstallSettles(f, p, s);
        FullCoverageStaysPossible(Next(f, Install(p, s)), streams);
        CanCoverLater(f, Install(p, s), streams);
      } else if Token(p, s) in f.releasing {
        ServerReleaseSettles(f, p, s);
        FullCoverageStaysPossible(Next(f, ServerRelease(p, s)), streams);
        CanCoverLater(f, ServerRelease(p, s), streams);
      } else {
        ExpireSettles(f, s);
        FullCoverageStaysPossible(Next(f, Expire(s)), streams);
        CanCoverLater(f, Expire(s), streams);
      }
    } else {
      NobodyOver(f, streams);
      SettledCanCover(f, streams);
    }
  }

  lemma NobodyOver(f: Fleet, streams: set<StreamId>)
    requires Good(f) && 0 < |f.pods|
    requires forall p: PodId, s :: p < |f.pods| && s in f.pods[p].leases ==>
               s in streams && |f.pods[p].leases| <= CapOf(f, streams)
    requires forall s :: s in f.holder ==> s in f.pods[f.holder[s]].leases
    ensures Settled(f, streams)
  {
    forall p: PodId | p < |f.pods| ensures |f.pods[p].leases| <= CapOf(f, streams) {
      var leases := f.pods[p].leases;
      if s :| s in leases {
        assert s in f.pods[p].leases && s in streams;
      } else {
        assert leases == map[];
      }
    }
  }

  // ---------- rebalancing reaches the balance ----------

  /** Of n pods those from number k on rebalance one after the other, each seeing all of them. */
  function Round(n: nat, k: nat, now: int, total: nat): seq<Step>
    decreases n - k
  {
    if n <= k then [] else [Rebalance(k, now, n, total)] + Round(n, k + 1, now, total)
  }

  /** The pod has not grown, and has at least its share if it had. */
  predicate Shrunk(before: Leases.Pod, after: Leases.Pod, keep: nat) {
    && after.leases.Keys <= before.leases.Keys
    && (if |before.leases| <= keep then after.leases == before.leases else keep <= |after.leases|)
  }

  /** The pod has seen n peers, and its stabilization period is over by `time`. */
  predicate SeenBy(p: Leases.Pod, n: nat, time: int) { p.lastPeerCount == n && p.stableAt <= time }

  lemma FirstLook(p: Leases.Pod, n: nat, now: int, total: nat, keep: nat, time: int)
    requires 0 < n && Leases.FairShare(keep, n, total) && p.stableAt <= time && now + 30 <= time
    ensures var q := Leases.Rebalanced(p, now, PERIOD, n, total).0; SeenBy(q, n, time) && Shrunk(p, q, keep)
  {
    Leases.RebalanceReleasesTheLast(p, now, PERIOD, n, total, keep);
  }

  lemma SecondLook(p: Leases.Pod, n: nat, now: int, total: nat, keep: nat)
    requires 0 < n && Leases.FairShare(keep, n, total) && SeenBy(p, n, now)
    ensures |Leases.Rebalanced(p, now, PERIOD, n, total).0.leases| == Smaller(|p.leases|, keep)
  {
    Leases.RebalanceReleasesTheLast(p, now, PERIOD, n, total, keep);
  }

  /** A rebalance changes its own pod only. */
  lemma OnePod(f: Fleet, k: nat, now: int, peerCount: int, total: nat)
    requires k < |f.pods|
    ensures var g := Next(f, Rebalance(k, now, peerCount, total));
            g.pods == f.pods[k := Leases.Rebalanced(f.pods[k], now, PERIOD, peerCount, total).0]
  {
  }

  /** A round rebalances each of its pods once. */
  lemma {:induction false} RoundIs(f: Fleet, k: nat, now: int, total: nat)
    ensures var g := Run(f, Round(|f.pods|, k, now, total));
            && |g.pods| == |f.pods|
            && forall p: PodId :: p < |f.pods| ==>
                 g.pods[p] == if p < k then f.pods[p]
                              else Leases.Rebalanced(f.pods[p], now, PERIOD, |f.pods|, total).0
    decreases |f.pods| - k
  {
    if k < |f.pods| {
      var g := Next(f, Rebalance(k, now, |f.pods|, total));
      OnePod(f, k, now, |f.pods|, total);
      RoundIs(g, k + 1, now, total);
    }
  }

  function Smaller(a: nat, b: nat): nat { if a < b then a else b }

  /** Whatever the pods lead, two rounds in which each sees all the others, a stabilization period apart, leave every
      pod with what it led or, if that was more, with exactly its fair share. */
  lemma TwoRoundsBalance(f: Fleet, first: int, second: int, total: nat, keep: nat)
    requires Leases.FairShare(keep, |f.pods|, total) && first + 30 <= second
    requires forall p: PodId :: p < |f.pods| ==> f.pods[p].stableAt <= second
    ensures var g := Run(Run(f, Round(|f.pods|, 0, first, total)), Round(|f.pods|, 0, second, total));
            && |g.pods| == |f.pods|
            && forall p: PodId :: p < |f.pods| ==> |g.pods[p].leases| == Smaller(|f.pods[p].leases|, keep)
  {
    var g := Run(f, Round(|f.pods|, 0, first, total));
    RoundIs(f, 0, first, total);
    RoundIs(g, 0, second, total);
    var h := Run(g, Round(|g.pods|, 0, second, total));
    forall p: PodId | p < |f.pods| ensures |h.pods[p].leases| == Smaller(|f.pods[p].leases|, keep) {
      FirstLook(f.pods[p], |f.pods|, first, total, keep, second);
      SecondLook(g.pods[p], |f.pods|, second, total, keep);
      ShrunkKeepsSmaller(f.pods[p], g.pods[p], keep);
    }
  }

  lemma ShrunkKeepsSmaller(before: Leases.Pod, after: Leases.Pod, keep: nat)
    requires Shrunk(before, after, keep)
    ensures Smaller(|after.leases|, keep) == Smaller(|before.leases|, keep)
  {
    Subset(after.leases.Keys, before.leases.Keys);
    assert |before.leases| == |before.leases.Keys| && |after.leases| == |after.leases.Keys|;
  }
}
