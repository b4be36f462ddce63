/**
 * The host's control panel: starting and stopping a screen share whose stream
 * combines the screen's video with microphone audio, the rule for answering
 * inbound calls with that stream, and the Space-key push-to-talk.
 */
module Controls {
  import opened Common
  import opened Media
  import opened LocalAudioHook

  /** The audio tracks of an optional stream (`stream?.getAudioTracks() ?? []`). */
  function AudioOf(s: Option<MediaStream>): seq<Track> {
    if s.Some? then AudioTracks(s.value) else []
  }

  /**
   * The shared stream: the screen's video tracks, then the new microphone
   * capture's audio tracks, then the local stream's audio tracks.
   */
  function Combine(screen: MediaStream, mic: MediaStream, local: Option<MediaStream>): (r: MediaStream)
    ensures |r.tracks| == |VideoTracks(screen)| + |AudioTracks(mic)| + |AudioOf(local)|
  {
    MediaStream(VideoTracks(screen) + AudioTracks(mic) + AudioOf(local))
  }

  /**
   * Taking the combined stream apart by kind gives back what went in: its video
   * is exactly the screen's video, its audio the microphone's then the local audio.
   */
  lemma CombineByKind(screen: MediaStream, mic: MediaStream, local: Option<MediaStream>)
    ensures VideoTracks(Combine(screen, mic, local)) == VideoTracks(screen)
    ensures AudioTracks(Combine(screen, mic, local)) == AudioTracks(mic) + AudioOf(local)
  {
    OfKindOfKind(screen.tracks, Video, Video);
    OfKindOfKind(screen.tracks, Video, Audio);
    OfKindOfKind(mic.tracks, Audio, Video);
    OfKindOfKind(mic.tracks, Audio, Audio);
    if local.Some? {
      OfKindOfKind(local.value.tracks, Audio, Video);
      OfKindOfKind(local.value.tracks, Audio, Audio);
    }
    ConcatByKind(VideoTracks(screen), AudioTracks(mic), AudioOf(local));
  }

  /** Video tracks followed by two runs of audio tracks, taken apart by kind. */
  lemma ConcatByKind(v: seq<Track>, a: seq<Track>, l: seq<Track>)
    requires OfKind(v, Video) == v && OfKind(v, Audio) == []
    requires OfKind(a, Video) == [] && OfKind(a, Audio) == a
    requires OfKind(l, Video) == [] && OfKind(l, Audio) == l
    ensures OfKind(v + a + l, Video) == v && OfKind(v + a + l, Audio) == a + l
  {
    var none: seq<Track> := [];
    OfKindAppend(v, a, Video);
    assert v + none == v;
    assert OfKind(v + a, Video) == v;
    OfKindAppend(v + a, l, Video);
    OfKindAppend(v, a, Audio);
    assert none + a == a;
    assert OfKind(v + a, Audio) == a;
    OfKindAppend(v + a, l, Audio);
  }

  /**
   * The local microphone's tracks are shared by reference with the combined
   * stream, so stopping the share also ends them.
   */
  lemma CombineSharesLocalAudio(screen: MediaStream, mic: MediaStream, local: Option<MediaStream>)
    ensures forall i :: 0 <= i < |AudioOf(local)| ==> AudioOf(local)[i] in Combine(screen, mic, local).tracks
  {
    var v := VideoTracks(screen);
    var a := AudioTracks(mic);
    var l := AudioOf(local);
    forall i | 0 <= i < |l|
      ensures l[i] in Combine(screen, mic, local).tracks
    {
      assert (v + a + l)[|v| + |a| + i] == l[i];
    }
  }

  /** The control panel's state. */
  class HostControls {
    var talking: bool
    var isSharingScreen: bool
    var isSharingTabAudio: bool
    /** `streamRef.current`: the last combined stream, kept after a stop. */
    var streamRef: Option<MediaStream>
    /** The values passed to `onStreamChange`, in order. */
    var notified: seq<Option<MediaStream>>
    /** The `enableMic` / `disableMic` pair comes from this hook. */
    const mic: LocalAudio
    /** The `localStream` prop. */
    const localStream: Option<MediaStream>
    /** Whether the parent passed `onStreamChange`. */
    const notifiesParent: bool
    /** Whether `peerRef.current` was set when the call-handler effect ran. */
    const handlesCalls: bool

    /** Both flags move together, and sharing implies a stored stream. */
    predicate Valid()
      reads this
    {
      isSharingScreen == isSharingTabAudio && (isSharingScreen ==> streamRef.Some?)
    }

    predicate Sharing()
      reads this
    {
      isSharingScreen || isSharingTabAudio
    }

    constructor (mic: LocalAudio, localStream: Option<MediaStream>, notifiesParent: bool, handlesCalls: bool)
      ensures this.mic == mic && this.localStream == localStream
      ensures this.notifiesParent == notifiesParent && this.handlesCalls == handlesCalls
      ensures !talking && !isSharingScreen && !isSharingTabAudio && streamRef == None && notified == []
      ensures Valid()
    {
      this.mic := mic;
      this.localStream := localStream;
      this.notifiesParent := notifiesParent;
      this.handlesCalls := handlesCalls;
      talking := false;
      isSharingScreen := false;
      isSharingTabAudio := false;
      streamRef := None;
      notified := [];
    }

    /**
     * `startScreenShare`, once both captures have settled: `micCapture` and
     * `screenCapture` are the streams obtained, `None` where a capture was
     * refused. A screen stream without a video track makes setting `onended`
     * throw, which the `catch` swallows like a refusal.
     */
    method StartScreenShare(micCapture: Option<MediaStream>, screenCapture: Option<MediaStream>)
      requires Valid()
      modifies this
      ensures Valid()
      ensures var started := !old(Sharing()) && micCapture.Some? && screenCapture.Some?
                             && |VideoTracks(screenCapture.value)| > 0;
        && (started ==>
             && streamRef == Some(Combine(screenCapture.value, micCapture.value, localStream))
             && notified == old(notified) + (if notifiesParent then [streamRef] else [])
             && isSharingScreen && isSharingTabAudio)
        && (!started ==>
             && streamRef == old(streamRef) && notified == old(notified)
             && isSharingScreen == old(isSharingScreen) && isSharingTabAudio == old(isSharingTabAudio))
      ensures talking == old(talking)
    {
      if isSharingScreen || isSharingTabAudio {
        return;
      }
      if micCapture.None? || screenCapture.None? || |VideoTracks(screenCapture.value)| == 0 {
        return;
      }
      var combined := Combine(screenCapture.value, micCapture.value, localStream);
      streamRef := Some(combined);
      if notifiesParent {
        notified := notified + [Some(combined)];
      }
      isSharingScreen := true;
      isSharingTabAudio := true;
    }

    /** The tracks of the stored stream. */
    function StoredTracks(): seq<Track>
      reads this
    {
      if streamRef.Some? then streamRef.value.tracks else []
    }

    /**
     * `stopScreenShare` (also run when the screen's video track ends): every
     * stored track is stopped, the parent is told there is no stream, and both
     * flags are cleared; the stored stream itself is kept.
     */
    method StopScreenShare()
      requires Valid()
      modifies this, TrackSet(StoredTracks())
      ensures Valid()
      ensures forall t :: t in old(StoredTracks()) ==> t.ended && t.enabled == old(t.enabled)
      ensures streamRef == old(streamRef)
      ensures notified == old(notified) + (if notifiesParent then [None] else [])
      ensures !isSharingScreen && !isSharingTabAudio && talking == old(talking)
    {
      StopAll(StoredTracks());
      if notifiesParent {
        notified := notified + [None];
      }
      isSharingScreen := false;
      isSharingTabAudio := false;
    }

    /**
     * An inbound call: answered with the stored stream when there is one and
     * closed otherwise; `None` when no handler was installed.
     */
    method HandleCall() returns (response: Option<CallResponse>)
      ensures !handlesCalls <==> response.None?
      ensures handlesCalls && streamRef.Some? ==> response == Some(Answer(streamRef))
      ensures handlesCalls && streamRef.None? ==> response == Some(Close)
    {
      if !handlesCalls {
        return None;
      }
      if streamRef.Some? {
        response := Some(Answer(streamRef));
      } else {
        response := Some(Close);
      }
    }

    /** `keydown`: Space starts talking and enables the microphone; other keys do nothing. */
    method KeyDown(code: string)
      modifies this, TrackSet(mic.MicTracks())
      ensures code == "Space" ==> talking && forall t :: t in mic.MicTracks() ==> t.enabled
      ensures code != "Space" ==> talking == old(talking)
      ensures forall t :: t in mic.MicTracks() ==> t.ended == old(t.ended)
      ensures code != "Space" ==> forall t :: t in mic.MicTracks() ==> t.enabled == old(t.enabled)
      ensures isSharingScreen == old(isSharingScreen) && isSharingTabAudio == old(isSharingTabAudio)
      ensures streamRef == old(streamRef) && notified == old(notified)
    {
      if code == "Space" {
        talking := true;
        mic.EnableMic();
      }
    }

    /** `keyup`: Space stops talking and disables the microphone; other keys do nothing. */
    method KeyUp(code: string)
      modifies this, TrackSet(mic.MicTracks())
      ensures code == "Space" ==> !talking && forall t :: t in mic.MicTracks() ==> !t.enabled
      ensures code != "Space" ==> talking == old(talking)
      ensures forall t :: t in mic.MicTracks() ==> t.ended == old(t.ended)
      ensures code != "Space" ==> forall t :: t in mic.MicTracks() ==> t.enabled == old(t.enabled)
      ensures isSharingScreen == old(isSharingScreen) && isSharingTabAudio == old(isSharingTabAudio)
      ensures streamRef == old(streamRef) && notified == old(notified)
    {
      if code == "Space" {
        talking := false;
        mic.DisableMic();
      }
    }

    /** Unmounting stops every track of the stored stream. */
    method Unmount()
      modifies TrackSet(StoredTracks())
      ensures forall t :: t in StoredTracks() ==> t.ended && t.enabled == old(t.enabled)
    {
      StopAll(StoredTracks());
    }
  }
}
