/** The materialized premium columns of users and viewers: recomputation and override expiry as atomic steps
    over the rows, with the database clock read once per step. */
module Premium {
  import opened Wrappers

  type Id = string
  type Instant = int

  /** An admin's opinion and its optional expiry; both columns are nullable. */
  datatype Grant = Grant(override: Option<bool>, expiresAt: Option<Instant>)

  datatype User = User(grant: Grant, isBetaTester: bool, isAmbassador: bool, isPremium: bool)
  datatype Viewer = Viewer(grant: Grant, isPremium: bool)
  datatype Subscription = Subscription(userId: Option<Id>, viewerId: Option<Id>, product: string, status: string)
  datatype Session = Session(viewerId: Id, userId: Option<Id>)

  datatype Store = Store(
    users: map<Id, User>, viewers: map<Id, Viewer>, subscriptions: seq<Subscription>, sessions: seq<Session>)

  // ---------- the pure entitlement ----------

  function Effective(adminOverride: Option<bool>, hasActiveSub: bool): bool {
    if adminOverride.Some? then adminOverride.value else hasActiveSub
  }

  predicate Lapsed(g: Grant, now: Instant) { g.expiresAt.Some? && g.expiresAt.value <= now }

  function Opinion(g: Grant, now: Instant): Option<bool> { if Lapsed(g, now) then None else g.override }

  predicate UserPays(db: Store, id: Id) {
    exists s :: s in db.subscriptions && s.userId == Some(id) && s.status == "active"
  }

  predicate ViewerPays(db: Store, id: Id) {
    exists s :: s in db.subscriptions && s.viewerId == Some(id) && s.product == "viewer" && s.status == "active"
  }

  predicate Linked(db: Store, viewer: Id, user: Id) {
    user in db.users && Session(viewer, Some(user)) in db.sessions
  }

  /** What a user is entitled to, by the rows and the clock and not by any materialized column. */
  predicate UserEntitled(db: Store, id: Id, now: Instant)
    requires id in db.users
  {
    var u := db.users[id];
    Effective(Opinion(u.grant, now), UserPays(db, id) || u.isBetaTester || u.isAmbassador)
  }

  predicate ViewerEntitled(db: Store, id: Id, now: Instant)
    requires id in db.viewers
  {
    Effective(Opinion(db.viewers[id].grant, now),
              ViewerPays(db, id) || exists u :: u in db.users && Linked(db, id, u) && UserEntitled(db, u, now))
  }

  /** A running override, the admin's yes or no, decides alone; otherwise an active subscription, or being a beta tester
      or an ambassador, makes a user premium. */
  lemma UserEntitledIff(db: Store, id: Id, now: Instant)
    requires id in db.users
    ensures var u := db.users[id];
            UserEntitled(db, id, now)
            <==> if u.grant.override.Some? && (u.grant.expiresAt.None? || now < u.grant.expiresAt.value)
                 then u.grant.override.value
                 else || (exists s :: s in db.subscriptions && s.userId == Some(id) && s.status == "active")
                      || u.isBetaTester || u.isAmbassador
  {
  }

  /** Likewise for viewers, with a viewer subscription or a linked user that is entitled. */
  lemma ViewerEntitledIff(db: Store, id: Id, now: Instant)
    requires id in db.viewers
    ensures var v := db.viewers[id];
            ViewerEntitled(db, id, now)
            <==> if v.grant.override.Some? && (v.grant.expiresAt.None? || now < v.grant.expiresAt.value)
                 then v.grant.override.value
                 else || (exists s :: s in db.subscriptions && s.viewerId == Some(id) && s.product == "viewer"
                                      && s.status == "active")
                      || (exists u :: u in db.users && Session(id, Some(u)) in db.sessions && UserEntitled(db, u, now))
  {
  }

  // ---------- the steps ----------

  datatype Error = UserNotFound(id: Id) | ViewerNotFound(id: Id)

  datatype Step =
    | RecomputeUser(id: Id)
    | RecomputeViewer(id: Id)
    | ExpireUser(id: Id)
    | ExpireViewer(id: Id)

  function WithUserColumn(db: Store, id: Id, now: Instant): Store {
    if id !in db.users then db
    else db.(users := db.users[id := db.users[id].(isPremium := UserEntitled(db, id, now))])
  }

  /** A linked user counts by its materialized column. */
  predicate InheritsPremium(db: Store, viewer: Id) {
    exists u :: u in db.users && Linked(db, viewer, u) && db.users[u].isPremium
  }

  function WithViewerColumn(db: Store, id: Id, now: Instant): Store {
    if id !in db.viewers then db
    else
      var v := db.viewers[id];
      var premium := Effective(Opinion(v.grant, now), ViewerPays(db, id) || InheritsPremium(db, id));
      db.(viewers := db.viewers[id := v.(isPremium := premium)])
  }

  predicate Due(g: Grant, now: Instant) { g.override.Some? && Lapsed(g, now) }

  const NO_GRANT := Grant(None, None)

  function WithoutUserGrant(db: Store, id: Id): Store
    requires id in db.users
  {
    db.(users := db.users[id := db.users[id].(grant := NO_GRANT)])
  }

  function WithoutViewerGrant(db: Store, id: Id): Store
    requires id in db.viewers
  {
    db.(viewers := db.viewers[id := db.viewers[id].(grant := NO_GRANT)])
  }

  function Next(db: Store, step: Step, now: Instant): Store {
    match step
    case RecomputeUser(id) => WithUserColumn(db, id, now)
    case RecomputeViewer(id) => WithViewerColumn(db, id, now)
    case ExpireUser(id) =>
      if id in db.users && Due(db.users[id].grant, now) then WithUserColumn(WithoutUserGrant(db, id), id, now)
      else db
    case ExpireViewer(id) =>
      if id in db.viewers && Due(db.viewers[id].grant, now) then WithViewerColumn(WithoutViewerGrant(db, id), id, now)
      else db
  }

  datatype Timed = Timed(step: Step, now: Instant)

  function Run(db: Store, steps: seq<Timed>): Store {
    if steps == [] then db
    else
      var last := steps[|steps| - 1];
      Next(Run(db, steps[..|steps| - 1]), last.step, last.now)
  }

  // ---------- the rows, updated in place ----------

  class Database {
    var users: map<Id, User>
    var viewers: map<Id, Viewer>
    var subscriptions: seq<Subscription>
    var sessions: seq<Session>

    function Rows(): Store
      reads this
    {
      Store(users, viewers, subscriptions, sessions)
    }

    constructor (db: Store)
      ensures Rows() == db
    {
      users, viewers, subscriptions, sessions := db.users, db.viewers, db.subscriptions, db.sessions;
    }

    method Recompute(id: Id, now: Instant) returns (r: Result<bool, Error>)
      modifies this`users
      ensures Rows() == Next(old(Rows()), RecomputeUser(id), now)
      ensures id !in old(users) ==> r == Err(UserNotFound(id)) && users == old(users)
      ensures id in old(users) ==>
                && r.Ok? && users == old(users)[id := old(users)[id].(isPremium := r.value)]
                && var u := old(users)[id];
                   (r.value <==> if u.grant.override.Some? && (u.grant.expiresAt.None? || now < u.grant.expiresAt.value)
                                 then u.grant.override.value
                                 else || (exists s :: s in subscriptions && s.userId == Some(id)
                                                      && s.status == "active")
                                      || u.isBetaTester || u.isAmbassador)
    {
      ghost var before := Rows();
      if id !in users {
        return Err(UserNotFound(id));
      }
      var u := users[id];
      var adminOverride := if u.grant.expiresAt.Some? && u.grant.expiresAt.value <= now then None else u.grant.override;
      var hasActiveSub := exists s :: s in subscriptions && s.userId == Some(id) && s.status == "active";
      var effective := Effective(adminOverride, hasActiveSub || u.isBetaTester || u.isAmbassador);
      users := users[id := u.(isPremium := effective)];
      r := Ok(effective);
      UserEntitledIff(before, id, now);
    }

    method ExpireUserOverrideIfDue(id: Id, now: Instant) returns (expired: bool)
      modifies this`users
      ensures Rows() == Next(old(Rows()), ExpireUser(id), now)
      ensures expired <==> && id in old(users) && old(users)[id].grant.override.Some?
                           && old(users)[id].grant.expiresAt.Some? && old(users)[id].grant.expiresAt.value <= now
      ensures if expired then users.Keys == old(users).Keys && users[id].grant == Grant(None, None)
              else users == old(users)
    {
      if id !in users || !Due(users[id].grant, now) {
        return false;
      }
      users := users[id := users[id].(grant := NO_GRANT)];
      var r := Recompute(id, now);
      expired := true;
    }

    method RecomputeViewer(id: Id, now: Instant) returns (r: Result<bool, Error>)
      modifies this`viewers
      ensures Rows() == Next(old(Rows()), Step.RecomputeViewer(id), now)
      ensures id !in old(viewers) ==> r == Err(ViewerNotFound(id)) && viewers == old(viewers)
      ensures id in old(viewers) ==>
                && r.Ok? && viewers == old(viewers)[id := old(viewers)[id].(isPremium := r.value)]
                && var v := old(viewers)[id];
                   (r.value <==> if v.grant.override.Some? && (v.grant.expiresAt.None? || now < v.grant.expiresAt.value)
                                 then v.grant.override.value
                                 else || (exists s :: s in subscriptions && s.viewerId == Some(id)
                                                      && s.product == "viewer" && s.status == "active")
                                      || (exists u :: u in users && Session(id, Some(u)) in sessions
                                                      && users[u].isPremium))
    {
      if id !in viewers {
        return Err(ViewerNotFound(id));
      }
      var v := viewers[id];
      var adminOverride := if v.grant.expiresAt.Some? && v.grant.expiresAt.value <= now then None else v.grant.override;
      var hasPremiumInput := ViewerPays(Rows(), id) || InheritsPremium(Rows(), id);
      var effective := Effective(adminOverride, hasPremiumInput);
      viewers := viewers[id := v.(isPremium := effective)];
      r := Ok(effective);
    }

    method ExpireViewerOverrideIfDue(id: Id, now: Instant) returns (expired: bool)
      modifies this`viewers
      ensures Rows() == Next(old(Rows()), ExpireViewer(id), now)
      ensures expired <==> && id in old(viewers) && old(viewers)[id].grant.override.Some?
                           && old(viewers)[id].grant.expiresAt.Some? && old(viewers)[id].grant.expiresAt.value <= now
      ensures if expired then viewers.Keys == old(viewers).Keys && viewers[id].grant == Grant(None, None)
              else viewers == old(viewers)
    {
      if id !in viewers || !Due(viewers[id].grant, now) {
        return false;
      }
      viewers := viewers[id := viewers[id].(grant := NO_GRANT)];
      var r := RecomputeViewer(id, now);
      expired := true;
    }
  }

  // ---------- no step changes an entitlement ----------

  /** The stores differ in materialized columns only, and in grants without effect from now on. */
  ghost predicate SameInputs(x: Store, y: Store, now: Instant) {
    && x.subscriptions == y.subscriptions && x.sessions == y.sessions
    && x.users.Keys == y.users.Keys && x.viewers.Keys == y.viewers.Keys
    && (forall id :: id in x.users ==>
          && x.users[id].isBetaTester == y.users[id].isBetaTester
          && x.users[id].isAmbassador == y.users[id].isAmbassador
          && SameGrant(x.users[id].grant, y.users[id].grant, now))
    && (forall id :: id in x.viewers ==> SameGrant(x.viewers[id].grant, y.viewers[id].grant, now))
  }

  /** A grant is kept as it is, or was due and is gone. */
  predicate SameGrant(x: Grant, y: Grant, now: Instant) { y == x || (Due(x, now) && y == NO_GRANT) }

  lemma StepKeepsInputs(db: Store, step: Step, now: Instant)
    ensures SameInputs(db, Next(db, step, now), now)
  {
  }

  lemma SameInputsSameUser(x: Store, y: Store, now: Instant, id: Id, later: Instant)
    requires SameInputs(x, y, now) && now <= later && id in x.users
    ensures UserEntitled(x, id, later) == UserEntitled(y, id, later)
  {
  }

  lemma SameInputsSameViewer(x: Store, y: Store, now: Instant, id: Id, later: Instant)
    requires SameInputs(x, y, now) && now <= later && id in x.viewers
    ensures ViewerEntitled(x, id, later) == ViewerEntitled(y, id, later)
  {
  }

  /** No step, an expiry included, changes what anyone is entitled to now or at any later time, and a grant
      only ever disappears if it was due: a permanent override or one still running is never cleared. */
  lemma StepsKeepEntitlements(db: Store, step: Step, now: Instant)
    ensures var after := Next(db, step, now);
            && after.users.Keys == db.users.Keys && after.viewers.Keys == db.viewers.Keys
            && (forall id, later :: id in db.users && now <= later ==>
                  UserEntitled(after, id, later) == UserEntitled(db, id, later))
            && (forall id, later :: id in db.viewers && now <= later ==>
                  ViewerEntitled(after, id, later) == ViewerEntitled(db, id, later))
            && (forall id :: id in db.users && !Due(db.users[id].grant, now) ==>
                  after.users[id].grant == db.users[id].grant)
            && (forall id :: id in db.viewers && !Due(db.viewers[id].grant, now) ==>
                  after.viewers[id].grant == db.viewers[id].grant)
  {
    var after := Next(db, step, now);
    StepKeepsInputs(db, step, now);
    forall id, later | id in db.users && now <= later
      ensures UserEntitled(after, id, later) == UserEntitled(db, id, later)
    {
      SameInputsSameUser(db, after, now, id, later);
    }
    forall id, later | id in db.viewers && now <= later
      ensures ViewerEntitled(after, id, later) == ViewerEntitled(db, id, later)
    {
      SameInputsSameViewer(db, after, now, id, later);
    }
  }

  // ---------- convergence while no expiry passes ----------

  predicate StaysPut(g: Grant, from: Instant, to: Instant) {
    g.expiresAt.Some? ==> g.expiresAt.value <= from || to < g.expiresAt.value
  }

  /** No expiry falls after `from` and up to `to`. */
  ghost predicate QuietWindow(db: Store, from: Instant, to: Instant) {
    && from <= to
    && (forall id :: id in db.users ==> StaysPut(db.users[id].grant, from, to))
    && (forall id :: id in db.viewers ==> StaysPut(db.viewers[id].grant, from, to))
  }

  ghost predicate Within(steps: seq<Timed>, from: Instant, to: Instant) {
    forall i :: 0 <= i < |steps| ==> from <= steps[i].now <= to
  }

  predicate UserRight(db: Store, id: Id, t: Instant) {
    id in db.users ==> db.users[id].isPremium == UserEntitled(db, id, t)
  }

  predicate ViewerRight(db: Store, id: Id, t: Instant) {
    id in db.viewers ==> db.viewers[id].isPremium == ViewerEntitled(db, id, t)
  }

  ghost predicate LinksRight(db: Store, viewer: Id, t: Instant) {
    forall u :: Linked(db, viewer, u) ==> UserRight(db, u, t)
  }

  lemma QuietStep(db: Store, step: Step, now: Instant, from: Instant, to: Instant)
    requires QuietWindow(db, from, to)
    ensures QuietWindow(Next(db, step, now), from, to)
  {
  }

  /** A step keeps every right user column right, and a recompute makes its own right. */
  lemma UserStep(db: Store, step: Step, now: Instant, from: Instant, to: Instant, id: Id)
    requires QuietWindow(db, from, to) && from <= now <= to
    requires UserRight(db, id, to) || step == RecomputeUser(id)
    ensures UserRight(Next(db, step, now), id, to)
  {
  }

  /** With its linked users right, recomputing a viewer writes what it is entitled to. */
  lemma RecomputedViewer(db: Store, now: Instant, from: Instant, to: Instant, id: Id)
    requires QuietWindow(db, from, to) && from <= now <= to && id in db.viewers && LinksRight(db, id, to)
    ensures WithViewerColumn(db, id, now).viewers[id].isPremium == ViewerEntitled(db, id, to)
  {
  }

  /** With its linked users right, a step keeps a right viewer column right, and a recompute makes it right. */
  lemma ViewerStep(db: Store, step: Step, now: Instant, from: Instant, to: Instant, id: Id)
    requires QuietWindow(db, from, to) && from <= now <= to && LinksRight(db, id, to)
    requires ViewerRight(db, id, to) || step == RecomputeViewer(id)
    ensures ViewerRight(Next(db, step, now), id, to)
  {
    if id in db.viewers {
      var after := Next(db, step, now);
      StepKeepsInputs(db, step, now);
      SameInputsSameViewer(db, after, now, id, to);
      if step == RecomputeViewer(id) {
        RecomputedViewer(db, now, from, to, id);
      } else if step == ExpireViewer(id) && Due(db.viewers[id].grant, now) {
        var cleared := WithoutViewerGrant(db, id);
        assert SameInputs(db, cleared, now);
        SameInputsSameViewer(db, cleared, now, id, to);
        forall u | Linked(cleared, id, u) ensures UserRight(cleared, u, to) {
          assert Linked(db, id, u) && UserRight(db, u, to);
          SameInputsSameUser(db, cleared, now, u, to);
        }
        RecomputedViewer(cleared, now, from, to, id);
      }
    }
  }

  lemma {:induction false} RunKeepsInputs(db: Store, steps: seq<Timed>, from: Instant, to: Instant)
    requires QuietWindow(db, from, to) && Within(steps, from, to)
    ensures QuietWindow(Run(db, steps), from, to)
    ensures Run(db, steps).users.Keys == db.users.Keys && Run(db, steps).viewers.Keys == db.viewers.Keys
    ensures Run(db, steps).sessions == db.sessions
    ensures forall id :: id in db.users ==> UserEntitled(Run(db, steps), id, to) == UserEntitled(db, id, to)
    ensures forall id :: id in db.viewers ==> ViewerEntitled(Run(db, steps), id, to) == ViewerEntitled(db, id, to)
  {
    if steps != [] {
      var n := |steps| - 1;
      RunKeepsInputs(db, steps[..n], from, to);
      StepsKeepEntitlements(Run(db, steps[..n]), steps[n].step, steps[n].now);
      StepKeepsInputs(Run(db, steps[..n]), steps[n].step, steps[n].now);
      QuietStep(Run(db, steps[..n]), steps[n].step, steps[n].now, from, to);
    }
  }

  /** A user recomputed anywhere in a run ends with the column it is entitled to. */
  lemma {:induction false} UsersConverge(db: Store, steps: seq<Timed>, from: Instant, to: Instant, id: Id, i: nat)
    requires QuietWindow(db, from, to) && Within(steps, from, to)
    requires i < |steps| && steps[i].step == RecomputeUser(id)
    ensures UserRight(Run(db, steps), id, to)
    decreases |steps|
  {
    var n := |steps| - 1;
    RunKeepsInputs(db, steps[..n], from, to);
    if i < n {
      UsersConverge(db, steps[..n], from, to, id, i);
    }
    UserStep(Run(db, steps[..n]), steps[n].step, steps[n].now, from, to, id);
  }

  /** Every user linked to the viewer is recomputed before position j. */
  ghost predicate UsersFirst(db: Store, steps: seq<Timed>, viewer: Id, j: nat)
    requires j <= |steps|
  {
    forall u :: Linked(db, viewer, u) ==> exists i :: 0 <= i < j && steps[i].step == RecomputeUser(u)
  }

  lemma LinksConverge(db: Store, steps: seq<Timed>, from: Instant, to: Instant, viewer: Id, j: nat)
    requires QuietWindow(db, from, to) && Within(steps, from, to)
    requires j <= |steps| && UsersFirst(db, steps, viewer, j)
    ensures LinksRight(Run(db, steps), viewer, to)
  {
    RunKeepsInputs(db, steps, from, to);
    forall u | Linked(Run(db, steps), viewer, u) ensures UserRight(Run(db, steps), u, to) {
      assert Linked(db, viewer, u);
      var i :| 0 <= i < j && steps[i].step == RecomputeUser(u);
      UsersConverge(db, steps, from, to, u, i);
    }
  }

  lemma {:induction false} ViewersConverge(
    db: Store, steps: seq<Timed>, from: Instant, to: Instant, id: Id, j: nat)
    requires QuietWindow(db, from, to) && Within(steps, from, to)
    requires j < |steps| && steps[j].step == RecomputeViewer(id) && UsersFirst(db, steps, id, j)
    ensures ViewerRight(Run(db, steps), id, to)
    decreases |steps|
  {
    var n := |steps| - 1;
    var shorter := steps[..n];
    RunKeepsInputs(db, shorter, from, to);
    assert UsersFirst(db, shorter, id, j) by {
      forall u | Linked(db, id, u) ensures exists i :: 0 <= i < j && shorter[i].step == RecomputeUser(u) {
        var i :| 0 <= i < j && steps[i].step == RecomputeUser(u);
        assert shorter[i] == steps[i];
      }
    }
    LinksConverge(db, shorter, from, to, id, j);
    if j < n {
      ViewersConverge(db, shorter, from, to, id, j);
    }
    ViewerStep(Run(db, shorter), steps[n].step, steps[n].now, from, to, id);
  }

  /** Every user is recomputed, and every viewer after the users linked to it. */
  ghost predicate Covers(db: Store, steps: seq<Timed>) {
    && (forall u :: u in db.users ==> exists i :: 0 <= i < |steps| && steps[i].step == RecomputeUser(u))
    && (forall v :: v in db.viewers ==>
          exists j :: 0 <= j < |steps| && steps[j].step == RecomputeViewer(v) && UsersFirst(db, steps, v, j))
  }

  /** While no expiry passes, any run of recomputes and expiries in any order and number, as long as users are
      recomputed before the viewers linked to them, ends with every column equal to the pure entitlement. */
  lemma EveryCoveringRunConverges(db: Store, steps: seq<Timed>, from: Instant, to: Instant)
    requires QuietWindow(db, from, to) && Within(steps, from, to) && Covers(db, steps)
    ensures var after := Run(db, steps);
            && after.users.Keys == db.users.Keys && after.viewers.Keys == db.viewers.Keys
            && (forall u :: u in db.users ==> after.users[u].isPremium == UserEntitled(db, u, to))
            && (forall v :: v in db.viewers ==> after.viewers[v].isPremium == ViewerEntitled(db, v, to))
  {
    RunKeepsInputs(db, steps, from, to);
    forall u | u in db.users ensures UserRight(Run(db, steps), u, to) {
      var i :| 0 <= i < |steps| && steps[i].step == RecomputeUser(u);
      UsersConverge(db, steps, from, to, u, i);
    }
    forall v | v in db.viewers ensures ViewerRight(Run(db, steps), v, to) {
      var j :| 0 <= j < |steps| && steps[j].step == RecomputeViewer(v) && UsersFirst(db, steps, v, j);
      ViewersConverge(db, steps, from, to, v, j);
    }
  }

  ghost predicate AllRight(db: Store, t: Instant) {
    && (forall u :: u in db.users ==> UserRight(db, u, t))
    && (forall v :: v in db.viewers ==> ViewerRight(db, v, t))
  }

  /** The converged state is a fixpoint: no further run changes a column. */
  lemma {:induction false} ConvergedIsFixpoint(db: Store, steps: seq<Timed>, from: Instant, to: Instant)
    requires QuietWindow(db, from, to) && Within(steps, from, to) && AllRight(db, to)
    ensures AllRight(Run(db, steps), to)
    ensures Run(db, steps).users.Keys == db.users.Keys && Run(db, steps).viewers.Keys == db.viewers.Keys
    ensures forall u :: u in db.users ==> Run(db, steps).users[u].isPremium == db.users[u].isPremium
    ensures forall v :: v in db.viewers ==> Run(db, steps).viewers[v].isPremium == db.viewers[v].isPremium
  {
    RunKeepsInputs(db, steps, from, to);
    if steps != [] {
      var n := |steps| - 1;
      var before := Run(db, steps[..n]);
      ConvergedIsFixpoint(db, steps[..n], from, to);
      RunKeepsInputs(db, steps[..n], from, to);
      forall u | u in before.users ensures UserRight(Run(db, steps), u, to) {
        UserStep(before, steps[n].step, steps[n].now, from, to, u);
      }
      forall v | v in before.viewers ensures ViewerRight(Run(db, steps), v, to) {
        ViewerStep(before, steps[n].step, steps[n].now, from, to, v);
      }
    }
  }

  /** The order matters: a viewer recomputed before the user linked to it is left behind. */
  lemma ViewerFirstIsLeftBehind(now: Instant)
    ensures exists db, user, viewer ::
              && Linked(db, viewer, user) && QuietWindow(db, now, now)
              && var steps := [Timed(RecomputeViewer(viewer), now), Timed(RecomputeUser(user), now)];
                 !ViewerRight(Run(db, steps), viewer, now)
  {
    var db := Store(
      map["u" := User(NO_GRANT, true, false, false)], map["v" := Viewer(NO_GRANT, false)], [],
      [Session("v", Some("u"))]);
    var steps := [Timed(RecomputeViewer("v"), now), Timed(RecomputeUser("u"), now)];
    assert steps[..1] == [Timed(RecomputeViewer("v"), now)] && steps[..1][..0] == [];
    assert Run(db, []) == db;
    var middle := Run(db, steps[..1]);
    var after := Run(db, steps);
    assert !middle.viewers["v"].isPremium && after.viewers == middle.viewers;
    assert Linked(after, "v", "u") && UserEntitled(after, "u", now);
    assert Linked(db, "v", "u") && QuietWindow(db, now, now);
  }
}
