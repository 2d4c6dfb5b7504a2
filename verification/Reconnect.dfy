/** The life of an overlay's socket: one reconnect timer, a per-socket latch, exponential backoff, the
    silence watchdog, the heartbeat and the recovery replay, as a machine over timed events.

    Times are milliseconds of one clock that never goes back; interval timers fire exactly when due, timeouts in
    the millisecond in which they are. */
module Reconnect {
  import opened Wrappers
  import PlatformStatus

  const HEARTBEAT_INTERVAL: int := 20000
  const LIVENESS_TIMEOUT: int := 40000
  const WATCHDOG_INTERVAL: int := 5000
  const RECOVERY_COOLDOWN: int := 15000

  datatype Ready = Connecting | Open | Closing | Closed

  function Power(base: real, n: nat): real {
    if n == 0 then 1.0 else base * Power(base, n - 1)
  }

  /** min(1000 * 1.5^attempts, 30000) */
  function BaseDelay(attempts: nat): real {
    var grown := 1000.0 * Power(1.5, attempts);
    if grown < 30000.0 then grown else 30000.0
  }

  /** `rng` is the random number in [0, 1) behind the jitter. */
  function BackoffDelay(attempts: nat, rng: real): real {
    BaseDelay(attempts) + rng * 1000.0
  }

  predicate IsStale(lastActivity: int, now: int) {
    0 < lastActivity && LIVENESS_TIMEOUT < now - lastActivity
  }

  /** What happened to the backoff curve: the socket opened, a drop was scheduled with a delay, an
      immediate reconnect was scheduled, or a pending delay was collapsed to zero. */
  datatype Mark = Opened | Dropped(delay: real) | Immediate | Collapsed

  datatype Timeout = Timeout(delay: real, due: real)

  /** `pending` are the browser's reconnect timeouts by id, `timer` the one the hook
      remembers. `watchdog` and `heartbeat` are when those intervals fire next. `rebinding` is a requested
      rebind of the socket effect. `socket` numbers the bound sockets; `rebinds` lists the sockets whose
      timer has fired, `recoveries` the times of recovery reconnects, `marks` the backoff history and
      `unanswered` the oldest ping no frame has followed. */
  datatype Machine = Machine(
    now: int, ready: Ready, attached: bool, scheduled: bool, attempts: nat, lastActivity: int,
    pending: map<nat, Timeout>, timer: Option<nat>, timers: nat,
    watchdog: Option<int>, heartbeat: Option<int>, rebinding: bool, socket: nat,
    lastStatus: map<string, PlatformStatus.Status>, lastRecovery: int,
    rebinds: seq<nat>, recoveries: seq<int>, marks: seq<Mark>, unanswered: Option<int>)

  /** The machine when the socket effect first runs, at a positive time. */
  function Start(now: int): Machine {
    Machine(now, Connecting, true, false, 0, 0, map[], None, 0, None, None, false, 0,
            map[], 0, [], [], [], None)
  }

  datatype Event =
    | Advance(to: int)
    | Opens
    | Traffic                                     // any frame that is not a status
    | StatusFrame(key: string, status: PlatformStatus.Status, configured: bool)
    | PeerCloses                                  // the peer's close frame arrives: no frames from now on
    | Drops(rng: real)                            // the browser reports the socket closed
    | HeartbeatTick
    | WatchdogTick(rng: real)
    | UsableAgain                                 // online, or the tab becomes visible
    | TimerFires(id: nat)
    | PropsChange                                 // a new token, id or passive flag
    | EffectRuns                                  // the cleanup of the old socket and the next bind

  /** setTimeout after clearTimeout of the remembered timer. */
  function SetTimer(m: Machine, delay: real): Machine {
    var cleared := if m.timer.Some? then m.pending - {m.timer.value} else m.pending;
    m.(pending := cleared[m.timers := Timeout(delay, m.now as real + delay)],
       timer := Some(m.timers), timers := m.timers + 1)
  }

  /** The single funnel of every reconnect. */
  function RequestReconnect(m: Machine, immediate: bool, rng: real): Machine {
    if m.scheduled then
      if immediate && m.timer.Some? then SetTimer(m, 0.0).(marks := m.marks + [Collapsed]) else m
    else
      var delay := if immediate then 0.0 else BackoffDelay(m.attempts, rng);
      SetTimer(m, delay).(
        scheduled := true, attached := false, watchdog := None, heartbeat := None,
        ready := if m.ready.Closed? then Closed else Closing,
        attempts := if immediate then 1 else m.attempts + 1,
        marks := m.marks + [if immediate then Immediate else Dropped(delay)])
  }

  function Due(interval: Option<int>, t: int): bool {
    interval.None? || t <= interval.value
  }

  predicate NonePast(pending: map<nat, Timeout>, t: int) {
    forall id :: id in pending ==> t as real <= pending[id].due
  }

  function HandleStatus(m: Machine, key: string, status: PlatformStatus.Status, configured: bool): Machine {
    var previous := if key in m.lastStatus then Some(m.lastStatus[key]) else None;
    var noted := if configured then m.(lastStatus := m.lastStatus[key := status]) else m;
    if configured && PlatformStatus.IsSourceRecovery(previous, status)
       && m.now - m.lastRecovery >= RECOVERY_COOLDOWN
    then RequestReconnect(noted.(lastRecovery := m.now, recoveries := m.recoveries + [m.now]), true, 0.0)
    else noted
  }

  /** onopen */
  function AfterOpen(m: Machine): Machine {
    m.(ready := Open, lastActivity := m.now, attempts := 0, marks := m.marks + [Opened],
       heartbeat := Some(m.now + HEARTBEAT_INTERVAL), watchdog := Some(m.now + WATCHDOG_INTERVAL),
       unanswered := None)
  }

  /** Any inbound frame. */
  function Heard(m: Machine): Machine {
    m.(lastActivity := m.now, unanswered := None)
  }

  /** fireReconnect */
  function AfterFire(m: Machine, id: nat): Machine {
    m.(pending := m.pending - {id}, timer := None, rebinding := true, rebinds := m.rebinds + [m.socket])
  }

  /** The cleanup of the old socket's effect and the bind of the next socket. */
  function AfterEffect(m: Machine): Machine {
    m.(pending := if m.timer.Some? then m.pending - {m.timer.value} else m.pending, timer := None,
       watchdog := None, heartbeat := None, rebinding := false, socket := m.socket + 1,
       ready := Connecting, attached := true, scheduled := false, lastActivity := 0, unanswered := None)
  }

  /** The timeout is due in this millisecond. */
  predicate Fires(m: Machine, id: nat) { id in m.pending && m.pending[id].due < m.now as real + 1.0 }

  /** An event that cannot happen in a state leaves it alone. */
  function Next(m: Machine, e: Event): Machine {
    match e
    case Advance(to) =>
      if m.now <= to && Due(m.watchdog, to) && Due(m.heartbeat, to) && NonePast(m.pending, to) then m.(now := to)
      else m
    case Opens => if m.ready.Connecting? && m.attached then AfterOpen(m) else m
    case Traffic => if m.ready.Open? && m.attached then Heard(m) else m
    case StatusFrame(key, status, configured) =>
      if m.ready.Open? && m.attached then HandleStatus(Heard(m), key, status, configured) else m
    case PeerCloses => if m.ready.Open? && m.attached then m.(ready := Closing) else m
    case Drops(rng) =>
      if !m.ready.Closed? && m.attached then RequestReconnect(m.(ready := Closed), false, rng) else m
    case HeartbeatTick =>
      if m.heartbeat == Some(m.now) then
        m.(heartbeat := Some(m.now + HEARTBEAT_INTERVAL),
           unanswered := if m.ready.Open? && m.unanswered.None? then Some(m.now) else m.unanswered)
      else m
    case WatchdogTick(rng) =>
      if m.watchdog == Some(m.now) then
        var next := m.(watchdog := Some(m.now + WATCHDOG_INTERVAL));
        if IsStale(m.lastActivity, m.now) then RequestReconnect(next, false, rng) else next
      else m
    case UsableAgain =>
      if m.ready.Connecting? || (m.ready.Open? && !IsStale(m.lastActivity, m.now)) then m
      else RequestReconnect(m, true, 0.0)
    case TimerFires(id) => if Fires(m, id) then AfterFire(m, id) else m
    case PropsChange => m.(rebinding := true)
    case EffectRuns => if m.rebinding then AfterEffect(m) else m
  }

  predicate Legal(e: Event) {
    match e
    case Drops(rng) => 0.0 <= rng < 1.0
    case WatchdogTick(rng) => 0.0 <= rng < 1.0
    case _ => true
  }

  function Run(m: Machine, events: seq<Event>): Machine
    decreases |events|
  {
    if events == [] then m else Run(Next(m, events[0]), events[1..])
  }

  predicate AllLegal(events: seq<Event>) {
    forall e :: e in events ==> Legal(e)
  }

  // ---------- one timer, one rebind per socket ----------

  /** The only pending reconnect timeout is the remembered one, with a delay of zero or one in range. */
  ghost predicate OnlyRemembered(pending: map<nat, Timeout>, timer: Option<nat>, timers: nat) {
    && pending.Keys == (if timer.Some? then {timer.value} else {})
    && forall id :: id in pending ==> id < timers && (pending[id].delay == 0.0 || 1000.0 <= pending[id].delay < 31000.0)
  }

  /** Each socket's timeout has fired at most once. */
  ghost predicate RebindsOnce(rebinds: seq<nat>, socket: nat) {
    && (forall i, j :: 0 <= i < j < |rebinds| ==> rebinds[i] < rebinds[j])
    && (rebinds != [] ==> rebinds[|rebinds| - 1] <= socket)
  }

  predicate HasFired(rebinds: seq<nat>, socket: nat) { rebinds != [] && rebinds[|rebinds| - 1] == socket }

  /** One timeout at a time, set only by a socket that has latched, and fired once per socket. */
  ghost predicate TimerOk(
    pending: map<nat, Timeout>, timer: Option<nat>, timers: nat, rebinds: seq<nat>, socket: nat,
    scheduled: bool, attached: bool)
  {
    && OnlyRemembered(pending, timer, timers)
    && RebindsOnce(rebinds, socket)
    && (timer.Some? ==> scheduled)
    && (attached <==> !scheduled)
    && (HasFired(rebinds, socket) ==> scheduled && timer.None?)
  }

  ghost predicate OneTimer(m: Machine) {
    TimerOk(m.pending, m.timer, m.timers, m.rebinds, m.socket, m.scheduled, m.attached)
  }

  // ---------- the backoff curve ----------

  /** Failures since the socket last opened; an immediate reconnect restarts the count at one. */
  function Failures(marks: seq<Mark>): nat {
    if marks == [] then 0
    else
      var before := Failures(marks[..|marks| - 1]);
      match marks[|marks| - 1]
      case Opened => 0
      case Dropped(_) => before + 1
      case Immediate => 1
      case Collapsed => before
  }

  /** The n-th consecutive failure waits BaseDelay(n) and less than a second of jitter. */
  ghost predicate OnCurve(marks: seq<Mark>, attempts: nat) {
    && attempts == Failures(marks)
    && forall i {:trigger marks[i]} :: 0 <= i < |marks| && marks[i].Dropped? ==>
         var base := BaseDelay(Failures(marks[..i]));
         base <= marks[i].delay < base + 1000.0
  }

  ghost predicate Curve(m: Machine) { OnCurve(m.marks, m.attempts) }

  // ---------- recovery reconnects ----------

  ghost predicate Apart(recoveries: seq<int>, last: int) {
    && (forall i, j :: 0 <= i < j < |recoveries| ==> RECOVERY_COOLDOWN <= recoveries[j] - recoveries[i])
    && last == (if recoveries == [] then 0 else recoveries[|recoveries| - 1])
  }

  ghost predicate RecoveriesApart(m: Machine) { Apart(m.recoveries, m.lastRecovery) }

  // ---------- liveness ----------

  /** The socket is open or in the peer's closing handshake, and has not been given up. */
  predicate Attended(m: Machine) { m.attached && (m.ready.Open? || m.ready.Closing?) }

  /** The intervals run exactly while the socket is attended, and then it was not stale one watchdog interval
      before the next tick. */
  ghost predicate Watched(m: Machine) {
    && 0 < m.now
    && (Attended(m) <==> m.watchdog.Some?) && (Attended(m) <==> m.heartbeat.Some?)
    && (m.ready.Open? ==> m.attached)
    && (m.ready.Connecting? ==> m.lastActivity == 0)
    && (Attended(m) ==>
          && 0 < m.lastActivity <= m.now
          && m.now <= m.watchdog.value <= m.now + WATCHDOG_INTERVAL
          && m.now <= m.heartbeat.value <= m.now + HEARTBEAT_INTERVAL
          && m.watchdog.value - WATCHDOG_INTERVAL - m.lastActivity <= LIVENESS_TIMEOUT)
  }

  // ---------- no reconnect is lost ----------

  /** The next bind is on its way: a timeout that will ask for it is pending, or it has been asked for. */
  predicate UnderWay(m: Machine) {
    m.rebinding || (m.timer.Some? && m.timer.value in m.pending)
  }

  /** A closed socket is latched, a latched one is closing or closed, and then the next bind is on its way. */
  predicate NoneLost(m: Machine) {
    && (m.ready.Closed? ==> m.scheduled)
    && (m.scheduled ==> (m.ready.Closing? || m.ready.Closed?) && UnderWay(m))
  }

  const MAX_DELAY: real := 31000.0
  const MAX_SILENCE: int := LIVENESS_TIMEOUT + WATCHDOG_INTERVAL

  /** A pending timeout is due within its delay, and within 76 s of the last sign of life of its socket. */
  predicate DueSoon(m: Machine) {
    forall id :: id in m.pending ==>
      && m.now as real <= m.pending[id].due <= m.now as real + m.pending[id].delay
      && (0 < m.lastActivity ==> m.pending[id].due < (m.lastActivity + MAX_SILENCE) as real + MAX_DELAY)
  }

  ghost predicate Inv(m: Machine) {
    OneTimer(m) && Curve(m) && RecoveriesApart(m) && Watched(m) && NoneLost(m) && DueSoon(m)
  }

  lemma {:induction false} PowerGrows(n: nat)
    ensures 1.0 <= Power(1.5, n)
  {
    if n != 0 {
      PowerGrows(n - 1);
    }
  }

  /** A backoff delay is at least a second and less than 31 seconds. */
  lemma DelayRange(attempts: nat, rng: real)
    requires 0.0 <= rng < 1.0
    ensures 1000.0 <= BaseDelay(attempts) <= 30000.0
    ensures BaseDelay(attempts) <= BackoffDelay(attempts, rng) < BaseDelay(attempts) + 1000.0
  {
    PowerGrows(attempts);
  }

  /** The curve starts at a second and grows by half with each failure up to 30 s; the jitter is up to a second. */
  lemma DelayCurve(attempts: nat, rng: real)
    ensures BaseDelay(0) == 1000.0
    ensures var grown := 1.5 * BaseDelay(attempts);
            BaseDelay(attempts + 1) == if grown < 30000.0 then grown else 30000.0
    ensures BackoffDelay(attempts, rng) - BaseDelay(attempts) == 1000.0 * rng
  {
    PowerGrows(attempts);
  }

  lemma RequestKeepsOneTimer(m: Machine, immediate: bool, rng: real)
    requires OneTimer(m) && 0.0 <= rng < 1.0
    ensures OneTimer(RequestReconnect(m, immediate, rng))
  {
    DelayRange(m.attempts, rng);
  }

  lemma FiringKeepsOneTimer(m: Machine, id: nat)
    requires OneTimer(m) && id in m.pending
    ensures OneTimer(AfterFire(m, id))
  {
  }

  lemma EffectKeepsOneTimer(m: Machine)
    requires OneTimer(m)
    ensures OneTimer(AfterEffect(m))
  {
  }

  lemma StatusKeepsOneTimer(m: Machine, key: string, status: PlatformStatus.Status, configured: bool)
    requires OneTimer(m)
    ensures OneTimer(HandleStatus(m, key, status, configured))
  {
  }

  lemma NextKeepsOneTimer(m: Machine, e: Event)
    requires OneTimer(m) && Legal(e)
    ensures OneTimer(Next(m, e))
  {
    match e {
      case StatusFrame(key, status, configured) =>
        StatusKeepsOneTimer(Heard(m), key, status, configured);
      case Drops(rng) => RequestKeepsOneTimer(m.(ready := Closed), false, rng);
      case WatchdogTick(rng) =>
        RequestKeepsOneTimer(m.(watchdog := Some(m.now + WATCHDOG_INTERVAL)), false, rng);
      case UsableAgain => RequestKeepsOneTimer(m, true, 0.0);
      case TimerFires(id) => if id in m.pending { FiringKeepsOneTimer(m, id); }
      case EffectRuns => EffectKeepsOneTimer(m);
      case _ =>
    }
  }

  lemma CurveExtends(m: Machine, n: Machine, mark: Mark)
    requires Curve(m) && n.marks == m.marks + [mark]
    requires n.attempts == match mark { case Opened => 0 case Dropped(_) => m.attempts + 1
                                        case Immediate => 1 case Collapsed => m.attempts }
    requires mark.Dropped? ==> BaseDelay(m.attempts) <= mark.delay < BaseDelay(m.attempts) + 1000.0
    ensures Curve(n)
  {
    assert n.marks[..|m.marks|] == m.marks;
    forall i | 0 <= i < |n.marks| && n.marks[i].Dropped?
      ensures var base := BaseDelay(Failures(n.marks[..i])); base <= n.marks[i].delay < base + 1000.0
    {
      if i < |m.marks| {
        assert n.marks[..i] == m.marks[..i] && n.marks[i] == m.marks[i];
      }
    }
  }

  lemma RequestKeepsCurve(m: Machine, immediate: bool, rng: real)
    requires Curve(m) && 0.0 <= rng < 1.0
    ensures Curve(RequestReconnect(m, immediate, rng))
  {
    DelayRange(m.attempts, rng);
    var n := RequestReconnect(m, immediate, rng);
    if n.marks != m.marks {
      CurveExtends(m, n, n.marks[|m.marks|]);
    }
  }

  lemma StatusKeepsCurve(m: Machine, key: string, status: PlatformStatus.Status, configured: bool)
    requires Curve(m)
    ensures Curve(HandleStatus(m, key, status, configured))
  {
    var noted := if configured then m.(lastStatus := m.lastStatus[key := status]) else m;
    RequestKeepsCurve(noted.(lastRecovery := m.now, recoveries := m.recoveries + [m.now]), true, 0.0);
  }

  lemma OpenKeepsCurve(m: Machine)
    requires Curve(m)
    ensures Curve(AfterOpen(m))
  {
    CurveExtends(m, AfterOpen(m), Opened);
  }

  predicate Requests(e: Event) { e.StatusFrame? || e.Drops? || e.WatchdogTick? || e.UsableAgain? }

  lemma RequestsKeepCurve(m: Machine, e: Event)
    requires Curve(m) && Legal(e) && Requests(e)
    ensures Curve(Next(m, e))
  {
    match e {
      case StatusFrame(key, status, configured) => StatusKeepsCurve(Heard(m), key, status, configured);
      case Drops(rng) => RequestKeepsCurve(m.(ready := Closed), false, rng);
      case WatchdogTick(rng) =>
        RequestKeepsCurve(m.(watchdog := Some(m.now + WATCHDOG_INTERVAL)), false, rng);
      case UsableAgain => RequestKeepsCurve(m, true, 0.0);
      case _ =>
    }
  }

  lemma OthersLeaveCurve(m: Machine, e: Event)
    requires !Requests(e) && !e.Opens?
    ensures Next(m, e).marks == m.marks && Next(m, e).attempts == m.attempts
  {
  }

  lemma NextKeepsCurve(m: Machine, e: Event)
    requires Curve(m) && Legal(e)
    ensures Curve(Next(m, e))
  {
    if e.Opens? {
      OpenKeepsCurve(m);
    } else if Requests(e) {
      RequestsKeepCurve(m, e);
    } else {
      OthersLeaveCurve(m, e);
    }
  }

  lemma NextKeepsRecoveriesApart(m: Machine, e: Event)
    requires RecoveriesApart(m)
    ensures RecoveriesApart(Next(m, e))
  {
    if e.StatusFrame? && m.now - m.lastRecovery >= RECOVERY_COOLDOWN {
      OneMoreRecovery(m.recoveries, m.lastRecovery, m.now);
    }
  }

  lemma OneMoreRecovery(recoveries: seq<int>, last: int, now: int)
    requires Apart(recoveries, last) && RECOVERY_COOLDOWN <= now - last
    ensures Apart(recoveries + [now], now)
  {
  }

  lemma NextKeepsWatched(m: Machine, e: Event)
    requires OneTimer(m) && Watched(m)
    ensures Watched(Next(m, e))
  {
  }

  /** However often a reconnect is requested, and also from the middle of a handler, the socket is latched, at most
      one timeout is pending and the next bind is on its way. */
  lemma RequestsAreNeverLost(m: Machine, immediate: bool, rng: real)
    requires OneTimer(m) && (m.scheduled ==> UnderWay(m)) && 0.0 <= rng < 1.0
    ensures var n := RequestReconnect(m, immediate, rng);
            OneTimer(n) && n.scheduled && UnderWay(n) && |n.pending| <= 1
  {
    RequestKeepsOneTimer(m, immediate, rng);
    var n := RequestReconnect(m, immediate, rng);
    assert |n.pending| == |n.pending.Keys|;
  }

  lemma NextKeepsNoneLost(m: Machine, e: Event)
    requires OneTimer(m) && NoneLost(m)
    ensures NoneLost(Next(m, e))
  {
  }

  lemma RequestKeepsDueSoon(m: Machine, immediate: bool, rng: real)
    requires DueSoon(m) && OneTimer(m) && 0.0 <= rng < 1.0
    requires !m.scheduled && 0 < m.lastActivity ==> m.now - m.lastActivity <= MAX_SILENCE
    ensures DueSoon(RequestReconnect(m, immediate, rng))
  {
    DelayRange(m.attempts, rng);
  }

  lemma StatusKeepsDueSoon(m: Machine, key: string, status: PlatformStatus.Status, configured: bool)
    requires DueSoon(m) && OneTimer(m) && m.lastActivity == m.now
    ensures DueSoon(HandleStatus(m, key, status, configured))
  {
    var noted := if configured then m.(lastStatus := m.lastStatus[key := status]) else m;
    RequestKeepsDueSoon(noted.(lastRecovery := m.now, recoveries := m.recoveries + [m.now]), true, 0.0);
  }

  lemma NextKeepsDueSoon(m: Machine, e: Event)
    requires OneTimer(m) && Watched(m) && NoneLost(m) && DueSoon(m) && Legal(e)
    ensures DueSoon(Next(m, e))
  {
    match e {
      case StatusFrame(key, status, configured) =>
        if m.ready.Open? { StatusKeepsDueSoon(Heard(m), key, status, configured); }
      case Drops(rng) => RequestKeepsDueSoon(m.(ready := Closed), false, rng);
      case WatchdogTick(rng) =>
        RequestKeepsDueSoon(m.(watchdog := Some(m.now + WATCHDOG_INTERVAL)), false, rng);
      case UsableAgain => RequestKeepsDueSoon(m, true, 0.0);
      case _ =>
    }
  }

  // ---------- silence is noticed ----------

  /** Time passes and the intervals tick; no frame arrives and nothing else happens. */
  predicate Silent(e: Event) { e.Advance? || e.HeartbeatTick? || e == WatchdogTick(0.0) }

  /** The interval that is next, at its time. */
  function NextTick(m: Machine): (int, Event)
    requires m.watchdog.Some? && m.heartbeat.Some?
  {
    if m.watchdog.value <= m.heartbeat.value then (m.watchdog.value, WatchdogTick(0.0))
    else (m.heartbeat.value, HeartbeatTick)
  }

  /** How far the intervals can still move while the socket is silent and attended. */
  function Patience(m: Machine): int
    requires m.watchdog.Some? && m.heartbeat.Some?
  {
    (m.lastActivity + MAX_SILENCE - m.watchdog.value)
    + (m.lastActivity + MAX_SILENCE + HEARTBEAT_INTERVAL - m.heartbeat.value)
  }

  /** Time reaches the next tick, and the tick either gives the socket up or moves its interval on. */
  lemma TickComes(m: Machine)
    requires Inv(m) && Attended(m)
    ensures var (at, tick) := NextTick(m);
            var n := Next(Next(m, Advance(at)), tick);
            && Inv(n) && n.lastActivity == m.lastActivity && n.now == at <= m.lastActivity + MAX_SILENCE
            && 0 <= Patience(m)
            && if n.scheduled then 40000 < n.now - n.lastActivity
               else Attended(n) && Patience(n) < Patience(m)
  {
    var (at, tick) := NextTick(m);
    assert m.pending == map[] && Next(m, Advance(at)) == m.(now := at);
    NextKeepsInv(m, Advance(at));
    NextKeepsInv(m.(now := at), tick);
  }

  lemma TwoFirst(m: Machine, a: Event, b: Event, rest: seq<Event>)
    ensures Run(m, [a, b] + rest) == Run(Next(Next(m, a), b), rest)
  {
    assert ([a, b] + rest)[1..] == [b] + rest && ([b] + rest)[1..] == rest;
  }

  /** The socket has been given up for its silence since `heard`. */
  predicate GivenUpFor(m: Machine, heard: int) {
    m.scheduled && UnderWay(m) && m.lastActivity == heard && 40000 < m.now - heard <= 45000
  }

  /** However it got there, an attended socket that hears nothing is given up by its watchdog, after 40 s and within
      45 s of its last sign of life. */
  lemma {:induction false} SilenceIsNoticed(m: Machine) returns (events: seq<Event>)
    requires Inv(m) && Attended(m)
    ensures (forall e :: e in events ==> Silent(e)) && GivenUpFor(Run(m, events), m.lastActivity)
    decreases Patience(m)
  {
    var (at, tick) := NextTick(m);
    var n := Next(Next(m, Advance(at)), tick);
    TickComes(m);
    var rest: seq<Event> := [];
    if !n.scheduled {
      rest := SilenceIsNoticed(n);
    }
    events := [Advance(at), tick] + rest;
    TwoFirst(m, Advance(at), tick, rest);
  }

  // ---------- source statuses ----------

  /** The last status that a configured source reported to an open socket in a run. */
  function LastReported(m: Machine, events: seq<Event>, key: string): Option<PlatformStatus.Status>
    decreases |events|
  {
    if events == [] then None
    else
      var later := LastReported(Next(m, events[0]), events[1..], key);
      if later.Some? then later
      else
        match events[0]
        case StatusFrame(k, status, configured) =>
          if k == key && configured && m.ready.Open? && m.attached then Some(status) else None
        case _ => None
  }

  function Recorded(m: Machine, key: string): Option<PlatformStatus.Status> {
    if key in m.lastStatus then Some(m.lastStatus[key]) else None
  }

  lemma NextRecorded(m: Machine, e: Event, key: string)
    ensures Recorded(Next(m, e), key)
         == if e.StatusFrame? && e.key == key && e.configured && m.ready.Open? && m.attached then Some(e.status)
            else Recorded(m, key)
  {
  }

  /** What is recorded of a source is the last status it reported while configured: no other event, and no rebind,
      changes or forgets it. */
  lemma {:induction false} RecordedIsLastReported(m: Machine, events: seq<Event>, key: string)
    ensures var last := LastReported(m, events, key);
            Recorded(Run(m, events), key) == if last.Some? then last else Recorded(m, key)
    decreases |events|
  {
    if events != [] {
      NextRecorded(m, events[0], key);
      RecordedIsLastReported(Next(m, events[0]), events[1..], key);
    }
  }

  /** A configured source has come back: it says connected, and the last it said was that it was not. */
  predicate ComesBack(last: Option<PlatformStatus.Status>, status: PlatformStatus.Status) {
    && status == PlatformStatus.Connected
    && last in {Some(PlatformStatus.Offline), Some(PlatformStatus.Error), Some(PlatformStatus.Paused),
                Some(PlatformStatus.Reconnecting)}
  }

  /** The machine has given its socket up in favour of one that is bound at once. */
  predicate ReplacedAtOnce(m: Machine) {
    && m.scheduled && m.ready.Closing? && m.attempts == 1
    && m.timer.Some? && m.timer.value in m.pending && m.pending[m.timer.value] == Timeout(0.0, m.now as real)
  }

  /** None of these times, or else the start of the clock, is less than 15 s ago. */
  predicate Rested(recoveries: seq<int>, now: int) {
    (forall t :: t in recoveries ==> 15000 <= now - t) && (recoveries == [] ==> 15000 <= now)
  }

  lemma StatusDecides(m: Machine, key: string, status: PlatformStatus.Status, configured: bool)
    requires OneTimer(m) && m.ready.Open? && m.attached
    ensures var n := Next(m, StatusFrame(key, status, configured));
            if configured && ComesBack(Recorded(m, key), status) && RECOVERY_COOLDOWN <= m.now - m.lastRecovery
            then ReplacedAtOnce(n) && n.recoveries == m.recoveries + [m.now]
            else n.ready.Open? && !n.scheduled && n.pending == map[] && n.recoveries == m.recoveries
  {
    assert m.pending == map[];
  }

  /** In every run a status frame on an open socket makes it be replaced at once, by one to which the gap is replayed,
      exactly if the source is configured, has come back, and the last such replacement is 15 s ago. Otherwise the
      socket stays open and nothing is scheduled. */
  lemma {:induction false} ReplacedIffSourceComesBack(
    start: int, events: seq<Event>, key: string, status: PlatformStatus.Status, configured: bool)
    requires 0 < start && AllLegal(events) && Run(Start(start), events).ready.Open?
    ensures var m := Run(Start(start), events);
            var n := Next(m, StatusFrame(key, status, configured));
            if configured && ComesBack(LastReported(Start(start), events, key), status)
               && Rested(m.recoveries, m.now)
            then ReplacedAtOnce(n) && n.recoveries == m.recoveries + [m.now]
            else n.ready.Open? && !n.scheduled && n.pending == map[] && n.recoveries == m.recoveries
  {
    RunKeepsInv(Start(start), events);
    RecordedIsLastReported(Start(start), events, key);
    var m := Run(Start(start), events);
    LastIsLatest(m.recoveries, m.lastRecovery, m.now);
    StatusDecides(m, key, status, configured);
  }

  lemma LastIsLatest(recoveries: seq<int>, last: int, now: int)
    requires Apart(recoveries, last)
    ensures RECOVERY_COOLDOWN <= now - last
       <==> Rested(recoveries, now)
  {
    if recoveries != [] {
      assert last in recoveries;
    }
  }

  /** A watchdog tick either gives a silent socket up along the curve or leaves the socket alone. */
  lemma TickReplacesIffSilent(m: Machine, rng: real)
    requires OneTimer(m) && Watched(m) && m.watchdog == Some(m.now) && 0.0 <= rng < 1.0
    ensures var n := Next(m, WatchdogTick(rng));
            if LIVENESS_TIMEOUT < m.now - m.lastActivity then
              && n.ready.Closing? && n.timer.Some? && n.timer.value in n.pending
              && BaseDelay(m.attempts) <= n.pending[n.timer.value].delay < BaseDelay(m.attempts) + 1000.0
            else n.attached && n.ready == m.ready && n.pending == map[]
  {
    DelayRange(m.attempts, rng);
  }

  lemma NextKeepsInv(m: Machine, e: Event)
    requires Inv(m) && Legal(e)
    ensures Inv(Next(m, e))
  {
    NextKeepsOneTimer(m, e);
    NextKeepsCurve(m, e);
    NextKeepsRecoveriesApart(m, e);
    NextKeepsWatched(m, e);
    NextKeepsNoneLost(m, e);
    NextKeepsDueSoon(m, e);
  }

  lemma {:induction false} RunKeepsInv(m: Machine, events: seq<Event>)
    requires Inv(m) && AllLegal(events)
    ensures Inv(Run(m, events))
    decreases |events|
  {
    if events != [] {
      assert events[0] in events;
      NextKeepsInv(m, events[0]);
      RunKeepsInv(Next(m, events[0]), events[1..]);
    }
  }

  /** In every run: at most one reconnect timer is pending, each bound socket causes at most one rebind,
      every pending delay is 0 or in [1000, 31000) ms and follows the backoff curve, recovery reconnects
      are at least 15 s apart; and no reconnect is lost: a socket that is neither connecting nor open has the next
      bind on its way, unless it is in the peer's closing handshake, still watched and heard within 45 s; one that
      has been silent for longer has the next bind on its way, and after 76 s of silence it has been requested. */
  lemma {:induction false} EveryRun(start: int, events: seq<Event>)
    requires 0 < start && AllLegal(events)
    ensures var m := Run(Start(start), events);
            && |m.pending| <= 1 && OneTimer(m) && Curve(m) && RecoveriesApart(m) && NoneLost(m) && DueSoon(m)
            && (!m.ready.Connecting? && !m.ready.Open? && !UnderWay(m) ==>
                  Attended(m) && m.watchdog.Some? && m.now - m.lastActivity <= 45000)
            && (0 < m.lastActivity && 45000 < m.now - m.lastActivity ==> UnderWay(m))
            && (0 < m.lastActivity && 76000 <= m.now - m.lastActivity ==> m.rebinding)
  {
    RunKeepsInv(Start(start), events);
    var m := Run(Start(start), events);
    assert |m.pending| == |m.pending.Keys|;
  }

  /** What is still to happen for the next bind. */
  function Remaining(m: Machine): seq<Event> {
    if m.rebinding then [EffectRuns]
    else if m.timer.Some? && m.timer.value in m.pending then
      [Advance(m.pending[m.timer.value].due.Floor), TimerFires(m.timer.value), EffectRuns]
    else []
  }

  /** A reconnect that is on its way completes within 31 s: the timeout fires, the effect runs, and the next socket
      is connecting, with its handlers attached, its latch open and no timeout left. */
  lemma UnderWayCompletes(m: Machine)
    requires Inv(m) && UnderWay(m)
    ensures var n := Run(m, Remaining(m));
            && n.socket == m.socket + 1 && n.ready.Connecting? && n.attached && !n.scheduled && !n.rebinding
            && n.pending == map[] && n.timer.None? && n.attempts == m.attempts
            && m.now <= n.now <= m.now + 31000
  {
    if m.rebinding {
      OneEvent(m, EffectRuns);
    } else {
      var id := m.timer.value;
      var due := m.pending[id].due.Floor;
      ThreeEvents(m, Advance(due), TimerFires(id), EffectRuns);
      assert Next(m, Advance(due)) == m.(now := due) by {
        OnlyOnePending(m);
      }
      assert m.(now := due).pending[id].due < due as real + 1.0;
    }
  }

  lemma OnlyOnePending(m: Machine)
    requires Inv(m) && m.timer.Some?
    ensures m.pending.Keys == {m.timer.value} && m.watchdog.None? && m.heartbeat.None?
    ensures m.now <= m.pending[m.timer.value].due.Floor && NonePast(m.pending, m.pending[m.timer.value].due.Floor)
  {
  }

  lemma OneEvent(m: Machine, e: Event)
    ensures Run(m, [e]) == Next(m, e)
  {
    assert Run(Next(m, e), []) == Next(m, e);
  }

  lemma ThreeEvents(m: Machine, a: Event, b: Event, c: Event)
    ensures Run(m, [a, b, c]) == Next(Next(Next(m, a), b), c)
  {
    assert [a, b, c][1..] == [b, c] && [b, c][1..] == [c];
    assert Run(Next(m, a), [b, c]) == Run(Next(Next(m, a), b), [c]);
    OneEvent(Next(Next(m, a), b), c);
  }

  // ---------- answered pings keep the watchdog quiet ----------

  /** No ping of an open socket has waited more than 20 s for a frame. */
  predicate Answered(m: Machine) {
    m.ready.Open? && m.unanswered.Some? ==> m.now <= m.unanswered.value + HEARTBEAT_INTERVAL
  }

  predicate AlwaysAnswered(m: Machine, events: seq<Event>)
    decreases |events|
  {
    Answered(m) && (events != [] ==> AlwaysAnswered(Next(m, events[0]), events[1..]))
  }

  /** The watchdog never finds an open socket stale in a run. */
  predicate WatchdogQuiet(m: Machine, events: seq<Event>)
    decreases |events|
  {
    events != [] ==>
      && !(events[0].WatchdogTick? && m.ready.Open? && m.watchdog == Some(m.now) && IsStale(m.lastActivity, m.now))
      && WatchdogQuiet(Next(m, events[0]), events[1..])
  }

  ghost predicate RecentPing(m: Machine) {
    m.ready.Open? && m.heartbeat.Some? ==>
      match m.unanswered
      case None => m.heartbeat.value - HEARTBEAT_INTERVAL <= m.lastActivity
      case Some(ping) => ping - HEARTBEAT_INTERVAL <= m.lastActivity && ping <= m.now
  }

  lemma NextKeepsRecentPing(m: Machine, e: Event)
    requires Inv(m) && RecentPing(m)
    ensures RecentPing(Next(m, e))
  {
  }

  /** An open socket all of whose pings are answered within 20 s is never reconnected by the watchdog. */
  lemma {:induction false} AnsweredPingsKeepTheSocket(m: Machine, events: seq<Event>)
    requires Inv(m) && RecentPing(m) && AllLegal(events) && AlwaysAnswered(m, events)
    ensures WatchdogQuiet(m, events)
    decreases |events|
  {
    if events != [] {
      var e := events[0];
      assert e in events;
      NextKeepsRecentPing(m, e);
      NextKeepsInv(m, e);
      AnsweredPingsKeepTheSocket(Next(m, e), events[1..]);
    }
  }

  /** In every run from the first bind whose pings are all answered within 20 s, the watchdog never
      reconnects. */
  lemma {:induction false} AnsweredRunsAreQuiet(start: int, events: seq<Event>)
    requires 0 < start && AllLegal(events) && AlwaysAnswered(Start(start), events)
    ensures WatchdogQuiet(Start(start), events)
  {
    AnsweredPingsKeepTheSocket(Start(start), events);
  }
}
