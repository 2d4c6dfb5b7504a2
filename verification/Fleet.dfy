/** A fleet of pods over one lease server. Client calls are steps of their own: a granted claim is not
    yet in the pod's map, and a release travels after the pod has dropped the lease.

    The server gives a stream only when it is free, renews only for the holder, and releases only for
    the holder; it may also let a lease expire. */
module Fleet {
  import opened StreamIds
  import Leases

  type PodId = nat

  datatype Token = Token(pod: PodId, stream: StreamId)

  /** `granted` are claims the server granted that the pod has not installed yet; `releasing` are release
      calls on their way to the server. */
  datatype Fleet = Fleet(
    pods: seq<Leases.Pod>, holder: map<StreamId, PodId>,
    granted: multiset<Token>, releasing: multiset<Token>)

  datatype Step =
    | Claim(pod: PodId, stream: StreamId)           // ClaimLeadership answered
    | ClaimReplyLost(pod: PodId, stream: StreamId)  // granted, but the client saw an error
    | Install(pod: PodId, stream: StreamId)         // the second locked region of EnsureLeadership
    | Release(pod: PodId, stream: StreamId)
    | StopAll(pod: PodId)
    | Rebalance(pod: PodId, now: int, peerCount: int, total: nat)
    | Renew(pod: PodId, entry: nat, reachable: bool)
    | ServerRelease(pod: PodId, stream: StreamId)   // a release call reaches the server
    | ReleaseFails(pod: PodId, stream: StreamId)    // a release call is lost
    | Expire(stream: StreamId)

  const PERIOD: int := 30

  function NewFleet(pods: nat): Fleet {
    Fleet(seq(pods, _ => Leases.NewPod()), map[], multiset{}, multiset{})
  }

  function Local(f: Fleet, pod: PodId, p: Leases.Pod): Fleet
    requires pod < |f.pods|
  {
    f.(pods := f.pods[pod := p])
  }

  function Tokens(pod: PodId, streams: set<StreamId>): set<Token> {
    set s | s in streams :: Token(pod, s)
  }

  function Shed(f: Fleet, pod: PodId, p: Leases.Pod, streams: set<StreamId>): Fleet
    requires pod < |f.pods|
  {
    Local(f, pod, p).(releasing := f.releasing + multiset(Tokens(pod, streams)))
  }

  /** A step that is not enabled leaves the fleet alone. */
  ghost function Next(f: Fleet, step: Step): Fleet {
    match step
    case Claim(pod, stream) =>
      if pod < |f.pods| && stream !in f.holder then
        f.(holder := f.holder[stream := pod], granted := f.granted + multiset{Token(pod, stream)})
      else f
    case ClaimReplyLost(pod, stream) =>
      if pod < |f.pods| && stream !in f.holder then
        f.(holder := f.holder[stream := pod])
      else f
    case Install(pod, stream) =>
      if pod < |f.pods| && Token(pod, stream) in f.granted then
        Local(f, pod, Leases.Claimed(f.pods[pod], stream, true))
          .(granted := f.granted - multiset{Token(pod, stream)})
      else f
    case Release(pod, stream) =>
      if pod < |f.pods| && stream in f.pods[pod].leases then
        Shed(f, pod, Leases.Shed(f.pods[pod], {stream}), {stream})
      else f
    case StopAll(pod) =>
      if pod < |f.pods| then
        Shed(f, pod, Leases.Shed(f.pods[pod], f.pods[pod].leases.Keys), f.pods[pod].leases.Keys)
      else f
    case Rebalance(pod, now, peerCount, total) =>
      if pod < |f.pods| then
        var (p, released) := Leases.Rebalanced(f.pods[pod], now, PERIOD, peerCount, total);
        Shed(f, pod, p, released)
      else f
    case Renew(pod, entry, reachable) =>
      if pod < |f.pods| && entry < |f.pods[pod].entries| then
        var stream := f.pods[pod].entries[entry].stream;
        var ok := reachable && stream in f.holder && f.holder[stream] == pod;
        Local(f, pod, Leases.Renewed(f.pods[pod], entry, ok))
      else f
    case ServerRelease(pod, stream) =>
      if Token(pod, stream) in f.releasing then
        f.(releasing := f.releasing - multiset{Token(pod, stream)},
           holder := if stream in f.holder && f.holder[stream] == pod then f.holder - {stream} else f.holder)
      else f
    case ReleaseFails(pod, stream) =>
      f.(releasing := f.releasing - multiset{Token(pod, stream)})
    case Expire(stream) =>
      f.(holder := f.holder - {stream})
  }

  ghost function Run(f: Fleet, steps: seq<Step>): Fleet
    decreases |steps|
  {
    if steps == [] then f else Run(Next(f, steps[0]), steps[1..])
  }

  function One(b: bool): nat { if b then 1 else 0 }

  /** A pod's interests in a stream: a lease, a grant not yet installed, a release under way. */
  function Interests(f: Fleet, pod: PodId, stream: StreamId): nat {
    One(pod < |f.pods| && stream in f.pods[pod].leases)
    + f.granted[Token(pod, stream)] + f.releasing[Token(pod, stream)]
  }

  /** Each pod has at most one interest in each stream, and only in streams the server has given it. */
  ghost predicate Good(f: Fleet) {
    && (forall s :: s in f.holder ==> f.holder[s] < |f.pods|)
    && (forall p: PodId, s :: Interests(f, p, s) <= 1)
    && (forall p: PodId, s :: Interests(f, p, s) == 1 ==> s in f.holder && f.holder[s] == p)
  }

  /** No two pods lead the same stream. */
  ghost predicate Exclusive(f: Fleet) {
    forall p: PodId, q: PodId, s :: p < q < |f.pods| ==> !(s in f.pods[p].leases && s in f.pods[q].leases)
  }

  /** Whoever leads a stream is its holder on the server. */
  ghost predicate LeadersHold(f: Fleet) {
    forall p: PodId, s :: p < |f.pods| && s in f.pods[p].leases ==> s in f.holder && f.holder[s] == p
  }

  predicate NoInterest(f: Fleet, stream: StreamId) {
    forall p: PodId | p < |f.pods| :: Interests(f, p, stream) == 0
  }

  lemma HoldersExclude(f: Fleet)
    requires LeadersHold(f)
    ensures Exclusive(f)
  {
    forall p: PodId, q: PodId, s | p < q < |f.pods| && s in f.pods[p].leases
      ensures s !in f.pods[q].leases
    {
      assert f.holder[s] == p;
    }
  }

  lemma GoodIsExclusive(f: Fleet)
    requires Good(f)
    ensures Exclusive(f) && LeadersHold(f)
  {
    forall p: PodId, s | p < |f.pods| && s in f.pods[p].leases ensures s in f.holder && f.holder[s] == p {
      assert Interests(f, p, s) == 1;
    }
    HoldersExclude(f);
  }

  lemma ShedKeepsGood(f: Fleet, pod: PodId, p: Leases.Pod, streams: set<StreamId>)
    requires Good(f) && pod < |f.pods|
    requires streams <= f.pods[pod].leases.Keys && p.leases == f.pods[pod].leases - streams
    ensures Good(Shed(f, pod, p, streams))
  {
    var g := Shed(f, pod, p, streams);
    forall q: PodId, s ensures Interests(g, q, s) == Interests(f, q, s) {
      assert Token(q, s) in Tokens(pod, streams) <==> q == pod && s in streams;
    }
  }

  lemma LocalKeepsGood(f: Fleet, pod: PodId, p: Leases.Pod)
    requires Good(f) && pod < |f.pods| && p.leases.Keys <= f.pods[pod].leases.Keys
    ensures Good(Local(f, pod, p))
  {
    var g := Local(f, pod, p);
    forall q: PodId, s ensures Interests(g, q, s) <= Interests(f, q, s) {
    }
  }

  lemma ClaimKeepsGood(f: Fleet, pod: PodId, stream: StreamId)
    requires Good(f)
    ensures Good(Next(f, Claim(pod, stream))) && Good(Next(f, ClaimReplyLost(pod, stream)))
  {
    var g, h := Next(f, Claim(pod, stream)), Next(f, ClaimReplyLost(pod, stream));
    if g != f {
      forall q: PodId, s
        ensures Interests(g, q, s) == Interests(f, q, s) + One(q == pod && s == stream)
        ensures Interests(h, q, s) == Interests(f, q, s)
      {
      }
    }
  }

  lemma InstallKeepsGood(f: Fleet, pod: PodId, stream: StreamId)
    requires Good(f) && pod < |f.pods| && Token(pod, stream) in f.granted
    ensures Good(Next(f, Install(pod, stream)))
  {
    var g := Next(f, Install(pod, stream));
    assert Interests(f, pod, stream) <= 1;
    forall q: PodId, s ensures Interests(g, q, s) == Interests(f, q, s) {
    }
  }

  lemma ServerReleaseKeepsGood(f: Fleet, pod: PodId, stream: StreamId)
    requires Good(f)
    ensures Good(Next(f, ServerRelease(pod, stream))) && Good(Next(f, ReleaseFails(pod, stream)))
  {
    var g, h := Next(f, ServerRelease(pod, stream)), Next(f, ReleaseFails(pod, stream));
    assert Interests(f, pod, stream) <= 1;
    forall q: PodId, s
      ensures Interests(g, q, s) <= Interests(f, q, s) && Interests(h, q, s) <= Interests(f, q, s)
      ensures Interests(g, q, s) == 1 ==> s in g.holder && g.holder[s] == q
    {
    }
  }

  lemma RebalanceKeepsGood(f: Fleet, pod: PodId, now: int, peerCount: int, total: nat)
    requires Good(f) && pod < |f.pods|
    ensures Good(Next(f, Rebalance(pod, now, peerCount, total)))
  {
    var (p, released) := Leases.Rebalanced(f.pods[pod], now, PERIOD, peerCount, total);
    Leases.RebalancedIs(f.pods[pod], now, PERIOD, peerCount, total);
    ShedKeepsGood(f, pod, p, released);
  }

  lemma ExpireKeepsGood(f: Fleet, stream: StreamId)
    requires Good(f) && NoInterest(f, stream)
    ensures Good(Next(f, Expire(stream)))
  {
    var g := Next(f, Expire(stream));
    forall q: PodId, s ensures Interests(g, q, s) == Interests(f, q, s) {
    }
    forall q: PodId ensures Interests(g, q, stream) == 0 {
      assert Interests(f, q, stream) <= 1;
    }
  }

  lemma ReleaseKeepsGood(f: Fleet, pod: PodId, stream: StreamId)
    requires Good(f)
    ensures Good(Next(f, Release(pod, stream))) && Good(Next(f, StopAll(pod)))
  {
    if pod < |f.pods| {
      var p := f.pods[pod];
      ShedKeepsGood(f, pod, Leases.Shed(p, p.leases.Keys), p.leases.Keys);
      if stream in p.leases {
        ShedKeepsGood(f, pod, Leases.Shed(p, {stream}), {stream});
      }
    }
  }

  lemma RenewKeepsGood(f: Fleet, pod: PodId, entry: nat, reachable: bool)
    requires Good(f)
    ensures Good(Next(f, Renew(pod, entry, reachable)))
  {
    var g := Next(f, Renew(pod, entry, reachable));
    if pod < |f.pods| && entry < |f.pods[pod].entries| {
      LocalKeepsGood(f, pod, g.pods[pod]);
    }
  }

  /** Every step except an expiry that hits an interest keeps the fleet good. */
  lemma StepKeepsGood(f: Fleet, step: Step)
    requires Good(f)
    requires step.Expire? ==> NoInterest(f, step.stream)
    ensures Good(Next(f, step))
  {
    match step {
      case Claim(pod, stream) => ClaimKeepsGood(f, pod, stream);
      case ClaimReplyLost(pod, stream) => ClaimKeepsGood(f, pod, stream);
      case Install(pod, stream) => if Next(f, step) != f { InstallKeepsGood(f, pod, stream); }
      case Release(pod, stream) => ReleaseKeepsGood(f, pod, stream);
      case StopAll(pod) => ReleaseKeepsGood(f, pod, "");
      case Rebalance(pod, now, peerCount, total) =>
        if pod < |f.pods| { RebalanceKeepsGood(f, pod, now, peerCount, total); }
      case Renew(pod, entry, reachable) => RenewKeepsGood(f, pod, entry, reachable);
      case ServerRelease(pod, stream) => ServerReleaseKeepsGood(f, pod, stream);
      case ReleaseFails(pod, stream) => ServerReleaseKeepsGood(f, pod, stream);
      case Expire(stream) => ExpireKeepsGood(f, stream);
    }
  }

  predicate NoExpiry(steps: seq<Step>) {
    forall step :: step in steps ==> !step.Expire?
  }

  /** An expiry is safe while no pod has an interest in the stream. */
  predicate SafeStep(f: Fleet, step: Step) { step.Expire? ==> NoInterest(f, step.stream) }

  ghost predicate Safe(f: Fleet, steps: seq<Step>)
    decreases |steps|
  {
    steps != [] ==> SafeStep(f, steps[0]) && Safe(Next(f, steps[0]), steps[1..])
  }

  lemma {:induction false} NoExpiryIsSafe(f: Fleet, steps: seq<Step>)
    requires NoExpiry(steps)
    ensures Safe(f, steps)
    decreases |steps|
  {
    if steps != [] {
      assert steps[0] in steps;
      NoExpiryIsSafe(Next(f, steps[0]), steps[1..]);
    }
  }

  lemma {:induction false} SafeRunKeepsGood(f: Fleet, steps: seq<Step>)
    requires Good(f) && Safe(f, steps)
    ensures Good(Run(f, steps))
    decreases |steps|
  {
    if steps != [] {
      StepKeepsGood(f, steps[0]);
      SafeRunKeepsGood(Next(f, steps[0]), steps[1..]);
    }
  }

  lemma RunKeepsGood(f: Fleet, steps: seq<Step>)
    requires Good(f) && NoExpiry(steps)
    ensures Good(Run(f, steps))
  {
    NoExpiryIsSafe(f, steps);
    SafeRunKeepsGood(f, steps);
  }

  lemma NewFleetIsGood(pods: nat)
    ensures Good(NewFleet(pods))
  {
  }

  /** While the server expires nothing, no interleaving of any number of pods makes two of them lead one
      stream, and whoever leads a stream is its holder on the server. */
  lemma {:induction false} ExclusionWithoutExpiry(pods: nat, steps: seq<Step>)
    requires NoExpiry(steps)
    ensures Exclusive(Run(NewFleet(pods), steps)) && LeadersHold(Run(NewFleet(pods), steps))
  {
    NewFleetIsGood(pods);
    RunKeepsGood(NewFleet(pods), steps);
    GoodIsExclusive(Run(NewFleet(pods), steps));
  }

  /** Some expiry-free run from f ends with two leaders of one stream. */
  ghost predicate CanClash(f: Fleet) {
    exists steps :: NoExpiry(steps) && !Exclusive(Run(f, steps))
  }

  lemma CanClashLater(f: Fleet, step: Step)
    requires !step.Expire? && CanClash(Next(f, step))
    ensures CanClash(f)
  {
    var steps :| NoExpiry(steps) && !Exclusive(Run(Next(f, step), steps));
    var all := [step] + steps;
    assert all[1..] == steps;
    assert Run(f, all) == Run(Next(f, step), steps);
    assert NoExpiry(all);
  }

  /** Once the server has forgotten a stream that p leads, any other pod can come to lead it too. */
  lemma ForgottenLeaseClashes(f: Fleet, p: PodId, q: PodId, stream: StreamId)
    requires p < |f.pods| && q < |f.pods| && p != q
    requires stream in f.pods[p].leases && stream !in f.pods[q].leases && stream !in f.holder
    ensures CanClash(f)
  {
    var g := Next(f, Claim(q, stream));
    var h := Next(g, Install(q, stream));
    assert stream in h.pods[p].leases && stream in h.pods[q].leases;
    assert !Exclusive(h);
    assert Run(h, []) == h;
    assert CanClash(h);
    CanClashLater(g, Install(q, stream));
    CanClashLater(f, Claim(q, stream));
  }

  lemma ForgottenGrantClashes(f: Fleet, p: PodId, q: PodId, stream: StreamId)
    requires p < |f.pods| && q < |f.pods| && p != q
    requires Token(p, stream) in f.granted && stream !in f.pods[q].leases && stream !in f.holder
    ensures CanClash(f)
  {
    var g := Next(f, Install(p, stream));
    ForgottenLeaseClashes(g, p, q, stream);
    CanClashLater(f, Install(p, stream));
  }

  /** A release still under way can undo a later claim of the same pod. */
  lemma ForgottenReleaseClashes(f: Fleet, p: PodId, q: PodId, stream: StreamId)
    requires p < |f.pods| && q < |f.pods| && p != q
    requires Token(p, stream) in f.releasing && stream !in f.holder
    requires stream !in f.pods[p].leases && stream !in f.pods[q].leases
    ensures CanClash(f)
  {
    var g := Next(f, Claim(p, stream));
    var h := Next(g, Install(p, stream));
    var k := Next(h, ServerRelease(p, stream));
    assert stream in h.pods[p].leases && h.holder[stream] == p && k.pods == h.pods && stream !in k.holder;
    ForgottenLeaseClashes(k, p, q, stream);
    CanClashLater(h, ServerRelease(p, stream));
    CanClashLater(g, Install(p, stream));
    CanClashLater(f, Claim(p, stream));
  }

  /** In a good fleet of two or more pods an expiry endangers exclusion exactly when some pod has an
      interest in the stream: a lease, a grant it has not installed, or a release under way. */
  lemma ExpiryIsSafeIffNoInterest(f: Fleet, stream: StreamId)
    requires Good(f) && 2 <= |f.pods|
    ensures !CanClash(Next(f, Expire(stream))) <==> NoInterest(f, stream)
  {
    var g := Next(f, Expire(stream));
    if NoInterest(f, stream) {
      StepKeepsGood(f, Expire(stream));
      forall steps | NoExpiry(steps) ensures Exclusive(Run(g, steps)) {
        RunKeepsGood(g, steps);
        GoodIsExclusive(Run(g, steps));
      }
    } else {
      var p: PodId :| p < |f.pods| && Interests(f, p, stream) != 0;
      assert Interests(f, p, stream) == 1;
      var q: PodId := if p == 0 then 1 else 0;
      assert Interests(f, q, stream) == 0;
      if stream in f.pods[p].leases {
        ForgottenLeaseClashes(g, p, q, stream);
      } else if f.granted[Token(p, stream)] == 1 {
        ForgottenGrantClashes(g, p, q, stream);
      } else {
        ForgottenReleaseClashes(g, p, q, stream);
      }
    }
  }

  /** The streams the server has given a pod. */
  function Held(f: Fleet, pod: PodId): set<StreamId> {
    set s | s in f.holder && f.holder[s] == pod
  }

  function HeldBelow(f: Fleet, pods: nat): set<StreamId> {
    set s | s in f.holder && f.holder[s] < pods
  }

  lemma {:induction false} FullPodsHoldMany(f: Fleet, pods: nat, cap: nat)
    requires forall p: PodId :: p < pods ==> cap <= |Held(f, p)|
    ensures pods * cap <= |HeldBelow(f, pods)|
  {
    if pods != 0 {
      FullPodsHoldMany(f, pods - 1, cap);
      assert HeldBelow(f, pods) == HeldBelow(f, pods - 1) + Held(f, pods - 1);
      assert HeldBelow(f, pods - 1) !! Held(f, pods - 1);
      assert pods * cap == (pods - 1) * cap + cap;
    }
  }

  /** By pigeonhole, a stream the server has given to nobody leaves some pod under its cap. */
  lemma UnheldStreamLeavesRoom(f: Fleet, streams: set<StreamId>, free: StreamId) returns (p: PodId)
    requires Good(f) && 0 < |f.pods|
    requires f.holder.Keys <= streams && free in streams && free !in f.holder
    ensures p < |f.pods| && |f.pods[p].leases| <= |Held(f, p)| < Leases.Cap(|streams|, |f.pods|)
  {
    var cap := Leases.Cap(|streams|, |f.pods|);
    if forall p: PodId :: p < |f.pods| ==> cap <= |Held(f, p)| {
      FullPodsHoldMany(f, |f.pods|, cap);
      Leases.CapsCoverAllStreams(|streams|, |f.pods|);
      assert HeldBelow(f, |f.pods|) <= streams - {free};
      Subset(HeldBelow(f, |f.pods|), streams - {free});
      assert false;
    }
    p :| p < |f.pods| && |Held(f, p)| < cap;
    GoodIsExclusive(f);
    assert f.pods[p].leases.Keys <= Held(f, p);
    Subset(f.pods[p].leases.Keys, Held(f, p));
    assert |f.pods[p].leases| == |f.pods[p].leases.Keys|;
  }

  lemma Subset(a: set<StreamId>, b: set<StreamId>)
    requires a <= b
    ensures |a| <= |b|
  {
    assert b == a + (b - a);
  }
}
