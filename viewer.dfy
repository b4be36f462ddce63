/**
 * The viewer's side of a room: the hidden `<video>` element that plays the
 * host's stream, the dispatcher over the host's sync messages, and the drift
 * correction that either jumps to the host's time or nudges the playback rate
 * for one second.
 */
module Viewer {
  import opened Common
  import opened Messages
  import opened Media

  /** Drift beyond this many seconds is corrected by seeking. */
  const SeekThreshold: real := 0.5
  /** Drift beyond this many seconds (and within `SeekThreshold`) is corrected by a rate nudge. */
  const NudgeThreshold: real := 0.05
  /** The rate used while catching up with a host that is ahead. */
  const Faster: real := 1.02
  /** The rate used while letting a host that is behind catch up. */
  const Slower: real := 0.98

  /** The fields of the video element the sync logic reads and writes. */
  datatype Playback = Playback(currentTime: real, paused: bool, playbackRate: real)

  /**
   * The playback together with the rates saved by the restore timers still
   * pending, oldest first (every timer has the same one-second delay, so they
   * fire in the order they were set).
   */
  datatype SyncState = SyncState(video: Playback, pending: seq<real>)

  /** What `syncToHost` does for a given host time and local time. */
  datatype Correction = Hold | Jump | Nudge(rate: real)

  /**
   * The drift-correction rule. An absent host time makes the difference NaN,
   * which fails both comparisons.
   */
  function CorrectionFor(hostTime: Option<real>, local: real): Correction {
    if hostTime.None? then Hold
    else
      var diff := hostTime.value - local;
      if Abs(diff) > SeekThreshold then Jump
      else if Abs(diff) > NudgeThreshold then Nudge(if diff > 0.0 then Faster else Slower)
      else Hold
  }

  /** `syncToHost(hostTime)`: the new playback, and the rate a new timer will restore. */
  function Sync(s: SyncState, hostTime: Option<real>): SyncState {
    match CorrectionFor(hostTime, s.video.currentTime)
    case Hold => s
    case Jump => s.(video := s.video.(currentTime := hostTime.value))
    case Nudge(rate) =>
      SyncState(s.video.(playbackRate := rate), s.pending + [s.video.playbackRate])
  }

  /** The oldest pending timer fires and puts back the rate it saved. */
  function RestoreRate(s: SyncState): SyncState
    requires |s.pending| > 0
  {
    SyncState(s.video.(playbackRate := s.pending[0]), s.pending[1..])
  }

  /**
   * `handleHostMessage` on a present video element. A `seek` without a time
   * assigns `undefined` to `currentTime`, which throws before anything changes.
   */
  function Apply(s: SyncState, msg: Msg): SyncState {
    match msg
    case Play(_, t) => s.(video := s.video.(currentTime := t.GetOr(s.video.currentTime), paused := false))
    case Pause(_, _) => s.(video := s.video.(paused := true))
    case Seek(_, t) => if t.Some? then s.(video := s.video.(currentTime := t.value)) else s
    case Time(_, t) => Sync(s, t)
    case _ => s
  }

  /** The three bands of the correction rule, each stated with both directions. */
  lemma CorrectionBands(hostTime: real, local: real)
    ensures CorrectionFor(Some(hostTime), local) == Jump <==> Abs(hostTime - local) > SeekThreshold
    ensures CorrectionFor(Some(hostTime), local) == Nudge(Faster) <==>
      NudgeThreshold < hostTime - local <= SeekThreshold
    ensures CorrectionFor(Some(hostTime), local) == Nudge(Slower) <==>
      -SeekThreshold <= hostTime - local < -NudgeThreshold
    ensures CorrectionFor(Some(hostTime), local) == Hold <==> Abs(hostTime - local) <= NudgeThreshold
  {
  }

  /** A large drift jumps to the host's time and leaves the rate and the timers alone. */
  lemma SyncJumps(s: SyncState, hostTime: real)
    requires Abs(hostTime - s.video.currentTime) > SeekThreshold
    ensures Sync(s, Some(hostTime)) == s.(video := s.video.(currentTime := hostTime))
  {
  }

  /**
   * A moderate drift leaves the time alone, speeds up when the host is ahead and
   * slows down when it is behind, and starts a timer that will restore the old rate.
   */
  lemma SyncNudges(s: SyncState, hostTime: real)
    requires NudgeThreshold < Abs(hostTime - s.video.currentTime) <= SeekThreshold
    ensures var r := Sync(s, Some(hostTime));
      && r.video.currentTime == s.video.currentTime
      && r.video.paused == s.video.paused
      && (r.video.playbackRate > 1.0 <==> hostTime > s.video.currentTime)
      && r.video.playbackRate == (if hostTime > s.video.currentTime then Faster else Slower)
      && r.pending == s.pending + [s.video.playbackRate]
  {
  }

  /** A small drift, or a missing host time, changes nothing. */
  lemma SyncHolds(s: SyncState, hostTime: Option<real>)
    requires hostTime.Some? ==> Abs(hostTime.value - s.video.currentTime) <= NudgeThreshold
    ensures Sync(s, hostTime) == s
  {
  }

  /** After a correction the viewer is within half a second of the host's time. */
  lemma SyncConverges(s: SyncState, hostTime: real)
    ensures Abs(hostTime - Sync(s, Some(hostTime)).video.currentTime) <= SeekThreshold
  {
    if Abs(hostTime - s.video.currentTime) > SeekThreshold {
      assert Sync(s, Some(hostTime)).video.currentTime == hostTime;
    }
  }

  /** With no timer pending, a nudge followed by its restore gives back the original state. */
  lemma NudgeThenRestore(s: SyncState, hostTime: real)
    requires s.pending == []
    requires NudgeThreshold < Abs(hostTime - s.video.currentTime) <= SeekThreshold
    ensures var r := Sync(s, Some(hostTime)); |r.pending| == 1 && RestoreRate(r) == s
  {
    var r := Sync(s, Some(hostTime));
    assert r.pending == [s.video.playbackRate];
    assert r.pending[1..] == [];
  }

  /**
   * Two nudges before the first restore: the second timer saved the nudged
   * rate, so once both timers have fired the video keeps the nudged rate
   * instead of returning to the rate it had before the first nudge.
   */
  lemma DoubleNudgeKeepsNudgedRate(s: SyncState, hostTime: real)
    requires s.pending == []
    requires NudgeThreshold < Abs(hostTime - s.video.currentTime) <= SeekThreshold
    ensures var nudged := if hostTime > s.video.currentTime then Faster else Slower;
      var s2 := Sync(Sync(s, Some(hostTime)), Some(hostTime));
      && s2.pending == [s.video.playbackRate, nudged]
      && RestoreRate(RestoreRate(s2)).video.playbackRate == nudged
      && RestoreRate(RestoreRate(s2)).pending == []
  {
    var s1 := Sync(s, Some(hostTime));
    assert s1.video.currentTime == s.video.currentTime;
    assert s1.pending == [s.video.playbackRate];
    var s2 := Sync(s1, Some(hostTime));
    assert RestoreRate(s2).pending == s2.pending[1..];
  }

  /** `pause` pauses; `seek` with a time moves there and without one changes nothing. */
  lemma ApplyPauseAndSeek(s: SyncState, ts: int, t: Option<real>)
    ensures Apply(s, Pause(ts, t)).video.paused
    ensures Apply(s, Seek(ts, t)).video.currentTime == t.GetOr(s.video.currentTime)
    ensures Apply(s, Seek(ts, t)).video.paused == s.video.paused
    ensures t.None? ==> Apply(s, Seek(ts, t)) == s
  {
  }

  /** `play` moves to the sent time when there is one, keeps the time otherwise, and unpauses. */
  lemma ApplyPlay(s: SyncState, ts: int, t: Option<real>)
    ensures var r := Apply(s, Play(ts, t));
      && !r.video.paused
      && r.video.currentTime == (if t.Some? then t.value else s.video.currentTime)
      && r.video.playbackRate == s.video.playbackRate && r.pending == s.pending
  {
  }

  /** Only a `time` message can change the playback rate or start a restore timer. */
  lemma OnlyTimeNudges(s: SyncState, msg: Msg)
    requires !msg.Time?
    ensures Apply(s, msg).video.playbackRate == s.video.playbackRate
    ensures Apply(s, msg).pending == s.pending
  {
  }

  /** `pause` never moves the time; the other message kinds change nothing. */
  lemma ApplyLeavesTime(s: SyncState, msg: Msg)
    requires msg.Pause? || msg.Subtitle? || msg.ReadyForStream? || msg.Other?
    ensures Apply(s, msg).video.currentTime == s.video.currentTime
    ensures !msg.Pause? ==> Apply(s, msg) == s
  {
  }

  /**
   * Receiving the same `play`, `pause` or `seek` twice is the same as once; a
   * repeated `time` message is not covered, since each nudge starts a timer.
   */
  lemma ApplyIdempotent(s: SyncState, msg: Msg)
    requires !msg.Time?
    ensures Apply(Apply(s, msg), msg) == Apply(s, msg)
  {
  }

  /** A repeated `time` message in the nudge band starts a second timer. */
  lemma RepeatedTimeNudgesTwice(s: SyncState, ts: int, hostTime: real)
    requires NudgeThreshold < Abs(hostTime - s.video.currentTime) <= SeekThreshold
    ensures |Apply(Apply(s, Time(ts, Some(hostTime))), Time(ts, Some(hostTime))).pending| == |s.pending| + 2
  {
    var s1 := Apply(s, Time(ts, Some(hostTime)));
    assert s1.video.currentTime == s.video.currentTime;
    assert |s1.pending| == |s.pending| + 1;
  }

  /** The viewer room: its video element, restore timers, channel status and sent messages. */
  class ViewerRoom {
    /** `videoRef.current`: absent until the element has been created. */
    const video: VideoElement?
    /** Rates saved by the restore timers not yet fired, oldest first. */
    var pending: seq<real>
    var connected: bool
    var streamReady: bool
    /** Messages sent to the host over the data connection, in order. */
    var sent: seq<Msg>

    /** Pending timers hold the video element they restore. */
    predicate Valid()
      reads this
    {
      |pending| > 0 ==> video != null
    }

    /** The sync-relevant state of the room, when the video element exists. */
    function State(): SyncState
      reads this, video
      requires video != null
    {
      SyncState(Playback(video.currentTime, video.paused, video.playbackRate), pending)
    }

    constructor (video: VideoElement?)
      ensures this.video == video && pending == [] && !connected && !streamReady && sent == []
      ensures Valid()
    {
      this.video := video;
      pending := [];
      connected := false;
      streamReady := false;
      sent := [];
    }

    /** `syncToHost(hostTime)`. */
    method SyncToHost(hostTime: Option<real>)
      requires Valid()
      modifies this, video
      ensures Valid()
      ensures video != null ==> State() == Sync(old(State()), hostTime) && video.srcObject == old(video.srcObject)
      ensures video == null ==> pending == old(pending)
      ensures connected == old(connected) && streamReady == old(streamReady) && sent == old(sent)
    {
      if video == null {
        return;
      }
      if hostTime.None? {
        return;
      }
      var local := video.currentTime;
      var diff := hostTime.value - local;
      if Abs(diff) > SeekThreshold {
        video.currentTime := hostTime.value;
      } else if Abs(diff) > NudgeThreshold {
        var original := video.playbackRate;
        video.playbackRate := if diff > 0.0 then Faster else Slower;
        pending := pending + [original];
      }
    }

    /** `handleHostMessage(msg)`: every message is ignored while there is no video element. */
    method HandleHostMessage(msg: Msg)
      requires Valid()
      modifies this, video
      ensures Valid()
      ensures video != null ==> State() == Apply(old(State()), msg) && video.srcObject == old(video.srcObject)
      ensures video == null ==> pending == old(pending)
      ensures connected == old(connected) && streamReady == old(streamReady) && sent == old(sent)
    {
      if video == null {
        return;
      }
      match msg
      case Play(_, t) =>
        video.currentTime := t.GetOr(video.currentTime);
        video.paused := false;
      case Pause(_, _) =>
        video.paused := true;
      case Seek(_, t) =>
        if t.Some? {
          video.currentTime := t.value;
        }
      case Time(_, t) =>
        SyncToHost(t);
      case _ =>
    }

    /** The oldest pending restore timer fires. */
    method Restore()
      requires Valid() && |pending| > 0
      modifies this, video
      ensures Valid()
      ensures video != null && State() == RestoreRate(old(State())) && video.srcObject == old(video.srcObject)
      ensures connected == old(connected) && streamReady == old(streamReady) && sent == old(sent)
    {
      video.playbackRate := pending[0];
      pending := pending[1..];
    }

    /** The data connection opens: the viewer is connected and asks the host for the stream. */
    method OnDataOpen(ownId: string)
      modifies this
      ensures connected && sent == old(sent) + [ReadyForStream(ownId)]
      ensures pending == old(pending) && streamReady == old(streamReady)
    {
      connected := true;
      sent := sent + [ReadyForStream(ownId)];
    }

    /** The host calls: the viewer answers without sending any media of its own. */
    method OnCall() returns (response: CallResponse)
      ensures response.Answer? && response.media.None?
    {
      response := Answer(None);
    }

    /**
     * `attachStream(stream)`: plays the stream, and only with a video element.
     * Assigning `srcObject` reloads the element, which moves it to position 0
     * and resets its rate to the default 1; timers still pending keep their
     * saved rates.
     */
    method AttachStream(stream: MediaStream)
      requires Valid()
      modifies this, video
      ensures Valid()
      ensures streamReady == (old(streamReady) || video != null)
      ensures video != null ==>
        && video.srcObject == Some(stream) && !video.paused
        && video.currentTime == 0.0 && video.playbackRate == 1.0
      ensures pending == old(pending) && connected == old(connected) && sent == old(sent)
    {
      if video == null {
        return;
      }
      video.srcObject := Some(stream);
      video.currentTime, video.playbackRate := 0.0, 1.0;
      video.paused := false;
      streamReady := true;
    }
  }
}
