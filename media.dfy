/**
 * The browser media objects the core touches: tracks (shared by reference
 * between streams), streams, the `<video>` element, and the ways a PeerJS media
 * call can be answered.
 */
module Media {
  import opened Common

  datatype Kind = Audio | Video

  /** A `MediaStreamTrack`: `enabled` mutes it, `stop()` ends it for good. */
  class Track {
    const kind: Kind
    var enabled: bool
    var ended: bool

    /** A freshly captured track is live and enabled. */
    constructor (kind: Kind)
      ensures this.kind == kind && enabled && !ended
    {
      this.kind := kind;
      enabled := true;
      ended := false;
    }
  }

  /** A `MediaStream`: references to its tracks, in order. */
  datatype MediaStream = MediaStream(tracks: seq<Track>)

  /** The tracks of kind `k`, in their original order. */
  function OfKind(ts: seq<Track>, k: Kind): (r: seq<Track>)
    ensures |r| <= |ts|
  {
    if |ts| == 0 then []
    else (if ts[0].kind == k then [ts[0]] else []) + OfKind(ts[1..], k)
  }

  /** The selection holds exactly the tracks of `ts` of kind `k`. */
  lemma {:induction false} OfKindMembers(ts: seq<Track>, k: Kind)
    ensures forall i :: 0 <= i < |OfKind(ts, k)| ==> OfKind(ts, k)[i] in ts && OfKind(ts, k)[i].kind == k
    ensures forall i :: 0 <= i < |ts| && ts[i].kind == k ==> ts[i] in OfKind(ts, k)
    decreases |ts|
  {
    if |ts| > 0 {
      OfKindMembers(ts[1..], k);
      var head := if ts[0].kind == k then [ts[0]] else [];
      var rest := OfKind(ts[1..], k);
      assert OfKind(ts, k) == head + rest;
      forall i | 0 <= i < |OfKind(ts, k)|
        ensures OfKind(ts, k)[i] in ts && OfKind(ts, k)[i].kind == k
      {
        if i >= |head| {
          assert OfKind(ts, k)[i] == rest[i - |head|];
        }
      }
      forall i | 1 <= i < |ts| && ts[i].kind == k
        ensures ts[i] in OfKind(ts, k)
      {
        assert ts[i] == ts[1..][i - 1];
      }
    }
  }

  /** `getAudioTracks()`. */
  function AudioTracks(s: MediaStream): seq<Track> {
    OfKind(s.tracks, Audio)
  }

  /** `getVideoTracks()`. */
  function VideoTracks(s: MediaStream): seq<Track> {
    OfKind(s.tracks, Video)
  }

  /** Selecting by kind distributes over concatenation. */
  lemma {:induction false} OfKindAppend(a: seq<Track>, b: seq<Track>, k: Kind)
    ensures OfKind(a + b, k) == OfKind(a, k) + OfKind(b, k)
    decreases |a|
  {
    if |a| > 0 {
      assert (a + b)[1..] == a[1..] + b;
      OfKindAppend(a[1..], b, k);
    } else {
      assert a + b == b;
    }
  }

  /** Selecting twice by the same kind changes nothing; by another kind leaves nothing. */
  lemma {:induction false} OfKindOfKind(ts: seq<Track>, k: Kind, j: Kind)
    ensures OfKind(OfKind(ts, k), j) == if j == k then OfKind(ts, k) else []
    decreases |ts|
  {
    if |ts| > 0 {
      var head := if ts[0].kind == k then [ts[0]] else [];
      OfKindAppend(head, OfKind(ts[1..], k), j);
      OfKindOfKind(ts[1..], k, j);
    }
  }

  /** The objects a loop over `ts` may write. */
  function TrackSet(ts: seq<Track>): set<Track> {
    set t | t in ts
  }

  /** `ts.forEach(t => t.enabled = on)`. */
  method SetEnabled(ts: seq<Track>, on: bool)
    modifies TrackSet(ts)
    ensures forall t :: t in ts ==> t.enabled == on && t.ended == old(t.ended)
  {
    for i := 0 to |ts|
      invariant forall j :: 0 <= j < i ==> ts[j].enabled == on
      invariant forall t :: t in ts ==> t.ended == old(t.ended)
    {
      ts[i].enabled := on;
    }
  }

  /** `ts.forEach(t => t.stop())`. */
  method StopAll(ts: seq<Track>)
    modifies TrackSet(ts)
    ensures forall t :: t in ts ==> t.ended && t.enabled == old(t.enabled)
  {
    for i := 0 to |ts|
      invariant forall j :: 0 <= j < i ==> ts[j].ended
      invariant forall t :: t in ts ==> t.enabled == old(t.enabled)
    {
      ts[i].ended := true;
    }
  }

  /** The part of an `HTMLVideoElement` the core reads and writes. */
  class VideoElement {
    var currentTime: real
    var paused: bool
    var playbackRate: real
    var srcObject: Option<MediaStream>

    /** A new element is paused at time 0 with the normal rate and no source. */
    constructor ()
      ensures currentTime == 0.0 && paused && playbackRate == 1.0 && srcObject == None
    {
      currentTime := 0.0;
      paused := true;
      playbackRate := 1.0;
      srcObject := None;
    }
  }

  /** What a callee does with an inbound PeerJS media call. */
  datatype CallResponse =
    | Answer(media: Option<MediaStream>)  // `call.answer(stream)`, or `call.answer()` with no media
    | Close                               // `call.close()`
}
