/** The platform-status reducer of the overlay stream: which sources are active, and what each source
    last reported. */
module PlatformStatus {
  import opened Wrappers
  import opened Text

  datatype Status = Connected | Reconnecting | Offline | QuotaExceeded | Error | Paused

  /** A platform_status frame; `detail` stands for the fields the reducer only stores. */
  datatype Frame = Frame(platform: string, channelId: string, status: Status, detail: string)

  type Key = string

  datatype State = State(active: set<Key>, statuses: map<Key, Frame>)

  const EMPTY: State := State({}, map[])

  function SourceKey(platform: string, channelId: string): Key {
    platform + ":" + channelId
  }

  function KeyOf(frame: Frame): Key { SourceKey(frame.platform, frame.channelId) }

  predicate Accepted(frame: Frame, configured: set<Key>) {
    configured == {} || KeyOf(frame) in configured
  }

  predicate IsDown(status: Status) { status in {Offline, Error, Paused} }

  function Reduce(state: State, frame: Frame, configured: set<Key>): State {
    var key := KeyOf(frame);
    if !Accepted(frame, configured) then state
    else
      var active :=
        if frame.status.Connected? then state.active + {key}
        else if IsDown(frame.status) then state.active - {key}
        else state.active;
      var keep := key in state.statuses && state.statuses[key].status.Connected? && frame.status.Reconnecting?;
      State(active, if keep then state.statuses else state.statuses[key := frame])
  }

  /** A frame, with the sources that were configured when its socket was bound. */
  datatype Arrival = Arrival(frame: Frame, configured: set<Key>)

  function Run(arrivals: seq<Arrival>): State {
    if arrivals == [] then EMPTY
    else var last := arrivals[|arrivals| - 1];
         Reduce(Run(arrivals[..|arrivals| - 1]), last.frame, last.configured)
  }

  /** The frames of a source that were accepted: any, if no sources were configured, else those of configured ones. */
  function Reported(arrivals: seq<Arrival>, key: Key): seq<Frame> {
    if arrivals == [] then []
    else
      var earlier, last := Reported(arrivals[..|arrivals| - 1], key), arrivals[|arrivals| - 1];
      if last.frame.platform + ":" + last.frame.channelId == key && (last.configured == {} || key in last.configured)
      then earlier + [last.frame] else earlier
  }

  /** The last of the frames that said connected, offline, error or paused. */
  function LastDecisive(frames: seq<Frame>): Option<Status> {
    if frames == [] then None
    else
      var status := frames[|frames| - 1].status;
      if status in {Connected, Offline, Error, Paused} then Some(status) else LastDecisive(frames[..|frames| - 1])
  }

  /** The last of the frames that said anything but reconnecting. */
  function LastFirm(frames: seq<Frame>): Option<Frame> {
    if frames == [] then None
    else
      var frame := frames[|frames| - 1];
      if frame.status == Reconnecting then LastFirm(frames[..|frames| - 1]) else Some(frame)
  }

  /** The frame that is shown for a source: the last one, except that one which said connected is not replaced by
      any number that say reconnecting. */
  function Shown(frames: seq<Frame>): Option<Frame> {
    var firm := LastFirm(frames);
    if frames == [] then None
    else if firm.Some? && firm.value.status == Connected then firm
    else Some(frames[|frames| - 1])
  }

  /** In every run a source is active iff its last decisive frame said connected. */
  lemma {:induction false} ActiveIffLastConnected(arrivals: seq<Arrival>, key: Key)
    ensures key in Run(arrivals).active <==> LastDecisive(Reported(arrivals, key)) == Some(Connected)
  {
    if arrivals != [] {
      var earlier, last := arrivals[..|arrivals| - 1], arrivals[|arrivals| - 1];
      ActiveIffLastConnected(earlier, key);
      assert (Reported(earlier, key) + [last.frame])[..|Reported(earlier, key)|] == Reported(earlier, key);
    }
  }

  lemma OneMoreShown(frames: seq<Frame>, frame: Frame)
    ensures Shown(frames + [frame])
         == if Shown(frames).Some? && Shown(frames).value.status == Connected && frame.status == Reconnecting
            then Shown(frames) else Some(frame)
  {
    assert (frames + [frame])[..|frames|] == frames;
    assert LastFirm(frames + [frame]) == if frame.status == Reconnecting then LastFirm(frames) else Some(frame);
  }

  function Stored(state: State, key: Key): Option<Frame> {
    if key in state.statuses then Some(state.statuses[key]) else None
  }

  lemma ReducedStored(state: State, frame: Frame, configured: set<Key>, key: Key)
    ensures var stored := Stored(state, key);
            Stored(Reduce(state, frame, configured), key)
            == if KeyOf(frame) != key || !Accepted(frame, configured) then stored
               else if stored.Some? && stored.value.status == Connected && frame.status == Reconnecting then stored
               else Some(frame)
  {
  }

  /** In every run what is stored for a source is the frame to be shown for it. */
  lemma {:induction false} StoredIsShown(arrivals: seq<Arrival>, key: Key)
    ensures Stored(Run(arrivals), key) == Shown(Reported(arrivals, key))
  {
    if arrivals != [] {
      var earlier, last := arrivals[..|arrivals| - 1], arrivals[|arrivals| - 1];
      StoredIsShown(earlier, key);
      ReducedStored(Run(earlier), last.frame, last.configured, key);
      OneMoreShown(Reported(earlier, key), last.frame);
    }
  }

  /** In every run a source stored as connected is active, and an active source is stored, filed under
      its own key, and not as offline, error or paused. */
  lemma {:induction false} StoredStatusAgrees(arrivals: seq<Arrival>, key: Key)
    ensures var s := Run(arrivals);
            && (key in s.statuses ==> KeyOf(s.statuses[key]) == key)
            && (key in s.statuses && s.statuses[key].status.Connected? ==> key in s.active)
            && (key in s.active ==> key in s.statuses && s.statuses[key].status !in {Offline, Error, Paused})
  {
    if arrivals != [] {
      StoredStatusAgrees(arrivals[..|arrivals| - 1], key);
    }
  }

  /** Frames of different sources commute: platform names hold no colon, so different sources have
      different keys even when their channel ids do. */
  lemma DifferentSourcesCommute(state: State, f: Frame, forF: set<Key>, g: Frame, forG: set<Key>)
    requires ColonFree(f.platform) && ColonFree(g.platform)
    requires f.platform != g.platform || f.channelId != g.channelId
    ensures Reduce(Reduce(state, f, forF), g, forG) == Reduce(Reduce(state, g, forG), f, forF)
  {
    FirstField(f.platform, f.channelId, g.platform, g.channelId);
    var fg := Reduce(Reduce(state, f, forF), g, forG);
    var gf := Reduce(Reduce(state, g, forG), f, forF);
    assert fg.active == gf.active;
    assert fg.statuses == gf.statuses;
  }

  /** A transition that means messages may have been missed while the source was down. */
  predicate IsSourceRecovery(previous: Option<Status>, next: Status) {
    previous.Some? && previous.value in {Offline, Error, Paused, Reconnecting} && next.Connected?
  }
}
