/** The refs, latch and timers of the overlay socket hook as one mutable object. The ghost `machine` is the state of
    Reconnect that the fields stand for; every handler is one of its events and keeps its invariant. */
module OverlaySocket {
  import opened Wrappers
  import PlatformStatus
  import R = Reconnect

  class OverlaySocket {
    // the browser: clock, socket state, reconnect timeouts and the two intervals
    var now: int
    var readyState: R.Ready
    var attached: bool
    var timeouts: map<nat, R.Timeout>
    var nextTimeout: nat
    var watchdogAt: Option<int>
    var heartbeatAt: Option<int>

    // the hook: its refs, the per-socket latch and the pending rebind
    var scheduled: bool
    var attemptsRef: nat
    var lastActivityRef: int
    var reconnectTimeoutRef: Option<nat>
    var lastStatusRef: map<string, PlatformStatus.Status>
    var lastRecoveryReplayRef: int
    var forceReconnect: bool

    ghost var machine: R.Machine

    ghost predicate Agrees()
      reads this
    {
      && machine.now == now && machine.ready == readyState && machine.attached == attached
      && machine.pending == timeouts && machine.timers == nextTimeout
      && machine.watchdog == watchdogAt && machine.heartbeat == heartbeatAt
      && machine.scheduled == scheduled && machine.attempts == attemptsRef
      && machine.lastActivity == lastActivityRef && machine.timer == reconnectTimeoutRef
      && machine.lastStatus == lastStatusRef && machine.lastRecovery == lastRecoveryReplayRef
      && machine.rebinding == forceReconnect
    }

    ghost predicate Valid()
      reads this
    {
      Agrees() && R.Inv(machine)
    }

    /** A reconnect timeout is pending that fires at once. */
    predicate FiresAtOnce()
      reads this
    {
      && reconnectTimeoutRef.Some? && reconnectTimeoutRef.value in timeouts
      && timeouts[reconnectTimeoutRef.value] == R.Timeout(0.0, now as real)
    }

    /** A reconnect timeout is pending that waits as the n-th consecutive failure does. */
    predicate BacksOff(n: nat)
      reads this
    {
      && reconnectTimeoutRef.Some? && reconnectTimeoutRef.value in timeouts
      && R.BaseDelay(n) <= timeouts[reconnectTimeoutRef.value].delay < R.BaseDelay(n) + 1000.0
    }

    constructor (now: int)
      requires 0 < now
      ensures Valid() && machine == R.Start(now)
      ensures readyState.Connecting? && attached && !scheduled && !forceReconnect
      ensures timeouts == map[] && attemptsRef == 0 && lastStatusRef == map[] && lastRecoveryReplayRef == 0
    {
      this.now, readyState, attached := now, R.Connecting, true;
      timeouts, nextTimeout, watchdogAt, heartbeatAt := map[], 0, None, None;
      scheduled, attemptsRef, lastActivityRef, reconnectTimeoutRef := false, 0, 0, None;
      lastStatusRef, lastRecoveryReplayRef, forceReconnect := map[], 0, false;
      machine := R.Start(now);
    }

    // ---------- the handlers ----------

    /** onopen: the backoff curve starts over and no reconnect timeout is pending. */
    method OnOpen()
      requires Valid() && attached && readyState.Connecting?
      modifies this
      ensures Valid() && machine == R.Next(old(machine), R.Opens)
      ensures readyState.Open? && attemptsRef == 0 && timeouts == map[]
      ensures lastActivityRef == now && heartbeatAt == Some(now + 20000) && watchdogAt == Some(now + 5000)
    {
      R.NextKeepsInv(machine, R.Opens);
      Open();
    }

    /** onmessage for any frame but a platform status: the socket stays open and is not stale. */
    method OnTraffic()
      requires Valid() && attached && readyState.Open?
      modifies this
      ensures Valid() && machine == R.Next(old(machine), R.Traffic)
      ensures readyState.Open? && lastActivityRef == now && machine.unanswered.None?
    {
      R.NextKeepsInv(machine, R.Traffic);
      Touch();
    }

    /** onmessage for a platform status of the source `key`: the socket is given up, to be replaced at once, exactly
        when a configured source has come back outside the cooldown, and what it says is recorded. */
    method OnStatus(key: string, status: PlatformStatus.Status, configured: bool)
      requires Valid() && attached && readyState.Open?
      modifies this
      ensures Valid() && machine == R.Next(old(machine), R.StatusFrame(key, status, configured))
      ensures lastStatusRef == if configured then old(lastStatusRef)[key := status] else old(lastStatusRef)
      ensures var last := if key in old(lastStatusRef) then Some(old(lastStatusRef)[key]) else None;
              if configured && R.ComesBack(last, status) && 15000 <= now - old(lastRecoveryReplayRef)
              then readyState.Closing? && FiresAtOnce() && attemptsRef == 1 && lastRecoveryReplayRef == now
              else readyState.Open? && timeouts == map[] && lastRecoveryReplayRef == old(lastRecoveryReplayRef)
    {
      R.NextKeepsInv(machine, R.StatusFrame(key, status, configured));
      Touch();
      Handle(key, status, configured);
    }

    /** onclose, when the browser reports the socket closed: one timeout is pending, further along the curve. */
    method OnClose(rng: real)
      requires Valid() && attached && !readyState.Closed?
      requires 0.0 <= rng < 1.0
      modifies this
      ensures Valid() && machine == R.Next(old(machine), R.Drops(rng))
      ensures readyState.Closed? && |timeouts| == 1 && BacksOff(old(attemptsRef))
      ensures attemptsRef == old(attemptsRef) + 1
    {
      R.NextKeepsInv(machine, R.Drops(rng));
      R.DelayRange(attemptsRef, rng);
      EndSocket();
      RequestReconnect(false, rng);
      OneTimeout();
    }

    /** A heartbeat tick: pings an open socket, so that some ping of the last 20 s is answered or waiting. */
    method HeartbeatTick()
      requires Valid() && heartbeatAt == Some(now)
      modifies this
      ensures Valid() && machine == R.Next(old(machine), R.HeartbeatTick)
      ensures readyState == old(readyState) && (readyState.Open? ==> machine.unanswered.Some?)
      ensures heartbeatAt == Some(now + 20000)
      ensures R.RecentPing(old(machine)) ==> R.RecentPing(machine)
    {
      R.NextKeepsInv(machine, R.HeartbeatTick);
      if R.RecentPing(machine) {
        R.NextKeepsRecentPing(machine, R.HeartbeatTick);
      }
      Ping();
    }

    /** A watchdog tick: afterwards the socket has been heard within the timeout, or its replacement is pending. */
    method WatchdogTick(rng: real)
      requires Valid() && watchdogAt == Some(now) && 0.0 <= rng < 1.0
      modifies this
      ensures Valid() && machine == R.Next(old(machine), R.WatchdogTick(rng))
      ensures if 40000 < now - lastActivityRef then readyState.Closing? && BacksOff(old(attemptsRef))
              else attached && readyState == old(readyState) && timeouts == map[] && watchdogAt == Some(now + 5000)
    {
      ghost var before := machine;
      RestartWatchdog();
      if R.IsStale(lastActivityRef, now) {
        RequestReconnect(false, rng);
      }
      assert machine == R.Next(before, R.WatchdogTick(rng));
      assert R.Inv(machine) by { R.NextKeepsInv(before, R.WatchdogTick(rng)); }
      R.TickReplacesIffSilent(before, rng);
    }

    /** reconnectIfDead, on `online` or when the tab becomes visible: a socket that is connecting or healthy is left
        alone; of any other the next bind has been asked for or is about to be. */
    method ReconnectIfDead()
      requires Valid()
      modifies this
      ensures Valid() && machine == R.Next(old(machine), R.UsableAgain)
      ensures if old(readyState).Connecting? || (old(readyState).Open? && now - old(lastActivityRef) <= 40000)
              then machine == old(machine)
              else (forceReconnect || FiresAtOnce()) && (!old(scheduled) ==> FiresAtOnce() && attemptsRef == 1)
    {
      R.NextKeepsInv(machine, R.UsableAgain);
      if readyState.Connecting? {
        return;
      }
      var healthy := readyState.Open? && !R.IsStale(lastActivityRef, now);
      if healthy {
        return;
      }
      RequestReconnect(true, 0.0);
    }

    /** fireReconnect, when timeout `id` goes off: the rebind is requested, nothing is pending any more, and this
        socket has used its one rebind. */
    method FireReconnect(id: nat)
      requires Valid() && R.Fires(machine, id)
      modifies this
      ensures Valid() && machine == R.Next(old(machine), R.TimerFires(id))
      ensures forceReconnect && timeouts == map[] && reconnectTimeoutRef.None?
      ensures R.HasFired(machine.rebinds, machine.socket) && machine.socket !in old(machine).rebinds
    {
      R.NextKeepsInv(machine, R.TimerFires(id));
      Fire(id);
    }

    /** The cleanup of the old socket's effect and the bind of the next socket: whatever was pending for the old one
        is gone, and the new one can still be given up once. */
    method RunEffect()
      requires Valid() && forceReconnect
      modifies this
      ensures Valid() && machine == R.Next(old(machine), R.EffectRuns)
      ensures readyState.Connecting? && timeouts == map[] && watchdogAt.None? && heartbeatAt.None?
      ensures machine.socket == old(machine).socket + 1 && !R.HasFired(machine.rebinds, machine.socket)
    {
      R.NextKeepsInv(machine, R.EffectRuns);
      Rebind();
    }

    /** The browser's event loop: each event runs its handler in the states in which it can happen, so that every
        run of the object is a run of the machine. */
    method Dispatch(e: R.Event)
      requires Valid() && R.Legal(e)
      modifies this
      ensures Valid() && machine == R.Next(old(machine), e)
    {
      match e {
        case Advance(to) => AdvanceTo(to);
        case Opens => if attached && readyState.Connecting? { OnOpen(); }
        case Traffic => if attached && readyState.Open? { OnTraffic(); }
        case StatusFrame(key, status, configured) =>
          if attached && readyState.Open? { OnStatus(key, status, configured); }
        case PeerCloses => if attached && readyState.Open? { BeginClosing(); }
        case Drops(rng) => if attached && !readyState.Closed? { OnClose(rng); }
        case HeartbeatTick => if heartbeatAt == Some(now) { HeartbeatTick(); }
        case WatchdogTick(rng) => if watchdogAt == Some(now) { WatchdogTick(rng); }
        case UsableAgain => ReconnectIfDead();
        case TimerFires(id) => if id in timeouts && timeouts[id].due < now as real + 1.0 { FireReconnect(id); }
        case PropsChange => AskForRebind();
        case EffectRuns => if forceReconnect { RunEffect(); }
      }
    }

    // ---------- their parts ----------

    /** The browser's answer to the peer's close frame; no handler runs. */
    method BeginClosing()
      requires Valid() && attached && readyState.Open?
      modifies this`readyState, this`machine
      ensures Valid() && machine == R.Next(old(machine), R.PeerCloses)
      ensures readyState.Closing?
    {
      R.NextKeepsInv(machine, R.PeerCloses);
      readyState := R.Closing;
      machine := machine.(ready := R.Closing);
    }

    /** The browser's part of a drop. */
    method EndSocket()
      requires Agrees()
      modifies this`readyState, this`machine
      ensures Agrees() && machine == old(machine).(ready := R.Closed)
    {
      readyState := R.Closed;
      machine := machine.(ready := R.Closed);
    }

    method AdvanceTo(to: int)
      requires Valid()
      modifies this`now, this`machine
      ensures Valid() && machine == R.Next(old(machine), R.Advance(to))
    {
      R.NextKeepsInv(machine, R.Advance(to));
      if now <= to && R.Due(watchdogAt, to) && R.Due(heartbeatAt, to) && R.NonePast(timeouts, to) {
        now := to;
        machine := machine.(now := to);
      }
    }

    method Fire(id: nat)
      requires Agrees()
      modifies this`timeouts, this`reconnectTimeoutRef, this`forceReconnect, this`machine
      ensures Agrees() && machine == R.AfterFire(old(machine), id)
    {
      timeouts := timeouts - {id};
      reconnectTimeoutRef := None;
      forceReconnect := true;
      machine := R.AfterFire(machine, id);
    }

    method AskForRebind()
      requires Valid()
      modifies this`forceReconnect, this`machine
      ensures Valid() && machine == R.Next(old(machine), R.PropsChange)
      ensures forceReconnect
    {
      R.NextKeepsInv(machine, R.PropsChange);
      forceReconnect := true;
      machine := machine.(rebinding := true);
    }

    lemma OneTimeout()
      requires Valid() && reconnectTimeoutRef.Some?
      ensures |timeouts| == 1
    {
      assert timeouts.Keys == {reconnectTimeoutRef.value};
      assert |timeouts| == |timeouts.Keys|;
    }

    /** clearTimeout of the remembered timeout, then setTimeout of a new one. */
    method ResetTimeout(delay: real)
      requires Agrees()
      modifies this`timeouts, this`nextTimeout, this`reconnectTimeoutRef, this`machine
      ensures Agrees() && machine == R.SetTimer(old(machine), delay)
    {
      if reconnectTimeoutRef.Some? {
        timeouts := timeouts - {reconnectTimeoutRef.value};
      }
      timeouts := timeouts[nextTimeout := R.Timeout(delay, now as real + delay)];
      reconnectTimeoutRef := Some(nextTimeout);
      nextTimeout := nextTimeout + 1;
      machine := R.SetTimer(machine, delay);
    }

    method ClearLivenessTimers()
      modifies this`heartbeatAt, this`watchdogAt
      ensures heartbeatAt == None && watchdogAt == None
    {
      heartbeatAt := None;
      watchdogAt := None;
    }

    /** The single funnel of every reconnect trigger. */
    method RequestReconnect(immediate: bool, rng: real)
      requires Agrees()
      modifies this
      ensures Agrees() && machine == R.RequestReconnect(old(machine), immediate, rng)
    {
      if scheduled {
        if immediate && reconnectTimeoutRef.Some? {
          ResetTimeout(0.0);
          machine := machine.(marks := machine.marks + [R.Collapsed]);
        }
      } else {
        GiveUp(immediate, rng);
      }
    }

    /** The branch of the funnel that latches the socket and schedules the reconnect. */
    method GiveUp(immediate: bool, rng: real)
      requires Agrees() && !scheduled
      modifies this`scheduled, this`heartbeatAt, this`watchdogAt, this`attached, this`readyState, this`attemptsRef,
               this`timeouts, this`nextTimeout, this`reconnectTimeoutRef, this`machine
      ensures Agrees() && machine == R.RequestReconnect(old(machine), immediate, rng)
    {
      var delay := if immediate then 0.0 else R.BackoffDelay(attemptsRef, rng);
      Latch();
      ResetTimeout(delay);
      Count(immediate, if immediate then R.Immediate else R.Dropped(delay));
    }

    method Count(immediate: bool, ghost mark: R.Mark)
      requires Agrees()
      modifies this`attemptsRef, this`machine
      ensures Agrees()
      ensures machine == old(machine).(attempts := if immediate then 1 else old(machine).attempts + 1,
                                       marks := old(machine).marks + [mark])
    {
      attemptsRef := if immediate then 1 else attemptsRef + 1;
      machine := machine.(attempts := attemptsRef, marks := machine.marks + [mark]);
    }

    /** Latches the socket: its intervals are cleared, its handlers detached, and it is closed. */
    method Latch()
      requires Agrees()
      modifies this`scheduled, this`heartbeatAt, this`watchdogAt, this`attached, this`readyState, this`machine
      ensures Agrees()
      ensures machine == old(machine).(scheduled := true, heartbeat := None, watchdog := None, attached := false,
                                       ready := if old(readyState).Closed? then R.Closed else R.Closing)
    {
      scheduled := true;
      ClearLivenessTimers();
      attached := false;
      if !readyState.Closed? {
        readyState := R.Closing;
      }
      machine := machine.(
        scheduled := true, heartbeat := None, watchdog := None, attached := false, ready := readyState);
    }

    method Open()
      requires Agrees()
      modifies this`readyState, this`lastActivityRef, this`attemptsRef, this`heartbeatAt, this`watchdogAt, this`machine
      ensures Agrees() && machine == R.AfterOpen(old(machine))
    {
      MarkOpen();
      Touch();
      StartIntervals();
    }

    method MarkOpen()
      requires Agrees()
      modifies this`readyState, this`attemptsRef, this`machine
      ensures Agrees()
      ensures machine == old(machine).(ready := R.Open, attempts := 0, marks := old(machine).marks + [R.Opened])
    {
      readyState := R.Open;
      attemptsRef := 0;
      machine := machine.(ready := R.Open, attempts := 0, marks := machine.marks + [R.Opened]);
    }

    method StartIntervals()
      requires Agrees()
      modifies this`heartbeatAt, this`watchdogAt, this`machine
      ensures Agrees()
      ensures machine == old(machine).(heartbeat := Some(now + R.HEARTBEAT_INTERVAL),
                                       watchdog := Some(now + R.WATCHDOG_INTERVAL))
    {
      heartbeatAt := Some(now + R.HEARTBEAT_INTERVAL);
      watchdogAt := Some(now + R.WATCHDOG_INTERVAL);
      machine := machine.(heartbeat := heartbeatAt, watchdog := watchdogAt);
    }

    method RestartWatchdog()
      requires Agrees()
      modifies this`watchdogAt, this`machine
      ensures Agrees() && machine == old(machine).(watchdog := Some(now + R.WATCHDOG_INTERVAL))
    {
      watchdogAt := Some(now + R.WATCHDOG_INTERVAL);
      machine := machine.(watchdog := watchdogAt);
    }

    /** Notes inbound activity. */
    method Touch()
      requires Agrees()
      modifies this`lastActivityRef, this`machine
      ensures Agrees() && machine == R.Heard(old(machine))
    {
      lastActivityRef := now;
      machine := R.Heard(machine);
    }

    method Ping()
      requires Agrees()
      modifies this`heartbeatAt, this`machine
      ensures Agrees()
      ensures machine == old(machine).(
                heartbeat := Some(now + R.HEARTBEAT_INTERVAL),
                unanswered := if readyState.Open? && old(machine).unanswered.None? then Some(now)
                              else old(machine).unanswered)
    {
      heartbeatAt := Some(now + R.HEARTBEAT_INTERVAL);
      machine := machine.(heartbeat := heartbeatAt);
      if readyState.Open? && machine.unanswered.None? {
        machine := machine.(unanswered := Some(now));
      }
    }

    method Handle(key: string, status: PlatformStatus.Status, configured: bool)
      requires Agrees()
      modifies this
      ensures Agrees() && machine == R.HandleStatus(old(machine), key, status, configured)
    {
      var previous := if key in lastStatusRef then Some(lastStatusRef[key]) else None;
      if configured {
        lastStatusRef := lastStatusRef[key := status];
        machine := machine.(lastStatus := lastStatusRef);
      }
      if configured && PlatformStatus.IsSourceRecovery(previous, status) {
        if now - lastRecoveryReplayRef >= R.RECOVERY_COOLDOWN {
          lastRecoveryReplayRef := now;
          machine := machine.(lastRecovery := now, recoveries := machine.recoveries + [now]);
          RequestReconnect(true, 0.0);
        }
      }
    }

    method Rebind()
      requires Agrees()
      modifies this
      ensures Agrees() && machine == R.AfterEffect(old(machine))
    {
      CleanUp();
      Bind();
      machine := R.AfterEffect(machine);
    }

    method CleanUp()
      modifies this`heartbeatAt, this`watchdogAt, this`timeouts, this`reconnectTimeoutRef
      ensures heartbeatAt == None && watchdogAt == None && reconnectTimeoutRef == None
      ensures timeouts == if old(reconnectTimeoutRef).Some? then old(timeouts) - {old(reconnectTimeoutRef).value}
                          else old(timeouts)
    {
      ClearLivenessTimers();
      if reconnectTimeoutRef.Some? {
        timeouts := timeouts - {reconnectTimeoutRef.value};
        reconnectTimeoutRef := None;
      }
    }

    method Bind()
      modifies this`forceReconnect, this`readyState, this`attached, this`lastActivityRef, this`scheduled
      ensures !forceReconnect && readyState == R.Connecting && attached && lastActivityRef == 0 && !scheduled
    {
      forceReconnect := false;
      readyState := R.Connecting;
      attached := true;
      lastActivityRef := 0;
      scheduled := false;
    }
  }
}
