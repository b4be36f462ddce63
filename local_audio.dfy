/**
 * The local microphone hook: it acquires an audio stream when the component
 * has a role, starts with every audio track muted (push-to-talk), and flips
 * `enabled` on those tracks in place to talk or stop talking.
 */
module LocalAudioHook {
  import opened Common
  import opened Media

  /** `role` is truthy: the hook asks for the microphone only then. */
  predicate HasRole(role: Option<string>) {
    role.Some? && role.value != ""
  }

  /** The audio tracks of the held stream; none while no stream is held. */
  function HeldAudio(stream: Option<MediaStream>): seq<Track> {
    if stream.Some? then AudioTracks(stream.value) else []
  }

  /** The empty stream held after a failed acquisition has no track to toggle. */
  lemma FallbackHasNoMic()
    ensures HeldAudio(Some(MediaStream([]))) == []
  {
  }

  /** Every track of the held audio list is an audio track of the held stream. */
  lemma HeldAudioAreAudio(stream: Option<MediaStream>)
    ensures forall i :: 0 <= i < |HeldAudio(stream)| ==> HeldAudio(stream)[i].kind == Audio
    ensures stream.Some? ==> forall i :: 0 <= i < |HeldAudio(stream)| ==> HeldAudio(stream)[i] in stream.value.tracks
    ensures stream.Some? ==>
      forall i :: 0 <= i < |stream.value.tracks| && stream.value.tracks[i].kind == Audio ==>
        stream.value.tracks[i] in HeldAudio(stream)
  {
    if stream.Some? {
      OfKindMembers(stream.value.tracks, Audio);
    }
  }

  /** The hook's state: the role it was given and `streamRef.current`. */
  class LocalAudio {
    const role: Option<string>
    var stream: Option<MediaStream>

    constructor (role: Option<string>)
      ensures this.role == role && stream == None
    {
      this.role := role;
      stream := None;
    }

    /** The tracks `enableMic` and `disableMic` act on. */
    function MicTracks(): seq<Track>
      reads this
    {
      HeldAudio(stream)
    }

    /**
     * The acquisition effect settles: `result` is the stream `getUserMedia`
     * gave, `None` when it was refused. Nothing happens without a role.
     */
    method Acquire(result: Option<MediaStream>)
      modifies this, TrackSet(HeldAudio(result))
      ensures !HasRole(role) ==> stream == old(stream)
      ensures HasRole(role) && result.Some? ==>
        stream == result && forall t :: t in MicTracks() ==> !t.enabled
      ensures HasRole(role) && result.None? ==> stream == Some(MediaStream([])) && MicTracks() == []
      ensures forall t :: t in HeldAudio(result) ==> t.ended == old(t.ended)
      ensures !HasRole(role) ==> forall t :: t in HeldAudio(result) ==> t.enabled == old(t.enabled)
    {
      if !HasRole(role) {
        return;
      }
      if result.Some? {
        stream := result;
        SetEnabled(AudioTracks(result.value), false);
      } else {
        stream := Some(MediaStream([]));
      }
    }

    /** `enableMic`: every held audio track is enabled; nothing else changes. */
    method EnableMic()
      modifies TrackSet(MicTracks())
      ensures forall t :: t in MicTracks() ==> t.enabled && t.ended == old(t.ended)
      ensures stream.Some? ==>
        forall i :: 0 <= i < |stream.value.tracks| && stream.value.tracks[i].kind != Audio ==>
          stream.value.tracks[i].enabled == old(stream.value.tracks[i].enabled)
    {
      if stream.Some? {
        OfKindMembers(stream.value.tracks, Audio);
      }
      SetEnabled(MicTracks(), true);
    }

    /** `disableMic`: every held audio track is disabled; nothing else changes. */
    method DisableMic()
      modifies TrackSet(MicTracks())
      ensures forall t :: t in MicTracks() ==> !t.enabled && t.ended == old(t.ended)
      ensures stream.Some? ==>
        forall i :: 0 <= i < |stream.value.tracks| && stream.value.tracks[i].kind != Audio ==>
          stream.value.tracks[i].enabled == old(stream.value.tracks[i].enabled)
    {
      if stream.Some? {
        OfKindMembers(stream.value.tracks, Audio);
      }
      SetEnabled(MicTracks(), false);
    }
  }
}
