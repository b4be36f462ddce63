/**
 * The host's side of a room: the list of viewers shown to the host, the data
 * connections keyed by viewer peer id, the broadcast of playback commands to
 * the open connections, and the media calls that carry the host's stream.
 */
module Host {
  import opened Common
  import opened Messages
  import opened Media

  /** A row of the viewer list: a peer id and, when recorded, the media call placed to it. */
  datatype ViewerEntry = ViewerEntry(id: string, call: Option<nat>)

  /** A data connection object (`handle` tells objects apart) and whether it is open. */
  datatype DataConn = DataConn(handle: nat, open: bool)

  /**
   * A media call placed with `peer.call`: the callee, the stream it carries, and
   * whether its `close` handler removes the callee from the viewer list.
   */
  datatype PlacedCall = PlacedCall(to: string, stream: MediaStream, removesViewerOnClose: bool)

  /** A message and the peer ids it was sent to, in order. */
  datatype Sent = Sent(msg: Msg, to: seq<string>)

  predicate HasId(vs: seq<ViewerEntry>, id: string) {
    exists i :: 0 <= i < |vs| && vs[i].id == id
  }

  predicate DistinctIds(vs: seq<ViewerEntry>) {
    forall i, j :: 0 <= i < j < |vs| ==> vs[i].id != vs[j].id
  }

  predicate Distinct(s: seq<string>) {
    forall i, j :: 0 <= i < j < |s| ==> s[i] != s[j]
  }

  /** `prev.find(v => v.id === e.id) ? prev : [...prev, e]`. */
  function AddIfAbsent(vs: seq<ViewerEntry>, e: ViewerEntry): seq<ViewerEntry> {
    if HasId(vs, e.id) then vs else vs + [e]
  }

  /** `prev.filter(v => v.id !== id)`. */
  function RemoveId(vs: seq<ViewerEntry>, id: string): (r: seq<ViewerEntry>)
    ensures |r| <= |vs|
  {
    if |vs| == 0 then []
    else (if vs[0].id == id then [] else [vs[0]]) + RemoveId(vs[1..], id)
  }

  /** Adding keeps the ids distinct, and afterwards the id is listed. */
  lemma AddIfAbsentKeepsDistinct(vs: seq<ViewerEntry>, e: ViewerEntry)
    requires DistinctIds(vs)
    ensures DistinctIds(AddIfAbsent(vs, e)) && HasId(AddIfAbsent(vs, e), e.id)
  {
    if !HasId(vs, e.id) {
      var r := vs + [e];
      assert r[|vs|].id == e.id;
    }
  }

  /** Adding an id that is already listed leaves the list unchanged; adding twice is adding once. */
  lemma AddIfAbsentIdempotent(vs: seq<ViewerEntry>, e: ViewerEntry, f: ViewerEntry)
    requires f.id == e.id
    ensures AddIfAbsent(AddIfAbsent(vs, e), f) == AddIfAbsent(vs, e)
  {
    if !HasId(vs, e.id) {
      assert (vs + [e])[|vs|].id == f.id;
    }
  }

  /**
   * The entry added on connection has no call, so the later add that carries
   * the media call for the same id is dropped: the call is never recorded.
   */
  lemma ConnectionFirstLosesCall(vs: seq<ViewerEntry>, id: string, call: nat)
    requires !HasId(vs, id)
    ensures AddIfAbsent(AddIfAbsent(vs, ViewerEntry(id, None)), ViewerEntry(id, Some(call)))
         == vs + [ViewerEntry(id, None)]
  {
    AddIfAbsentIdempotent(vs, ViewerEntry(id, None), ViewerEntry(id, Some(call)));
  }

  /** Removal keeps exactly the entries with other ids. */
  lemma {:induction false} RemoveIdMembers(vs: seq<ViewerEntry>, id: string, e: ViewerEntry)
    ensures e in RemoveId(vs, id) <==> e in vs && e.id != id
    decreases |vs|
  {
    if |vs| > 0 {
      RemoveIdMembers(vs[1..], id, e);
      assert e in vs <==> e == vs[0] || e in vs[1..] by {
        assert vs == [vs[0]] + vs[1..];
      }
    }
  }

  /** Removal keeps the order of the remaining entries: it distributes over concatenation. */
  lemma {:induction false} RemoveIdAppend(a: seq<ViewerEntry>, b: seq<ViewerEntry>, id: string)
    ensures RemoveId(a + b, id) == RemoveId(a, id) + RemoveId(b, id)
    decreases |a|
  {
    if |a| == 0 {
      assert a + b == b;
    } else {
      RemoveIdFirst(a, b, id);
      RemoveIdAppend(a[1..], b, id);
      var head: seq<ViewerEntry> := if a[0].id == id then [] else [a[0]];
      assert head + (RemoveId(a[1..], id) + RemoveId(b, id)) == head + RemoveId(a[1..], id) + RemoveId(b, id);
    }
  }

  lemma RemoveIdFirst(a: seq<ViewerEntry>, b: seq<ViewerEntry>, id: string)
    requires |a| > 0
    ensures RemoveId(a + b, id) == (if a[0].id == id then [] else [a[0]]) + RemoveId(a[1..] + b, id)
  {
    assert (a + b)[0] == a[0] && (a + b)[1..] == a[1..] + b;
  }

  /** After removal no entry has the id, and the remaining ids stay distinct. */
  lemma {:induction false} RemoveIdKeepsDistinct(vs: seq<ViewerEntry>, id: string)
    requires DistinctIds(vs)
    ensures DistinctIds(RemoveId(vs, id)) && !HasId(RemoveId(vs, id), id)
    decreases |vs|
  {
    if |vs| > 0 {
      var rest := RemoveId(vs[1..], id);
      RemoveIdKeepsDistinct(vs[1..], id);
      if vs[0].id != id {
        forall k | 0 <= k < |rest|
          ensures rest[k].id != vs[0].id
        {
          RemoveIdMembers(vs[1..], id, rest[k]);
          var j :| 0 <= j < |vs[1..]| && vs[1..][j] == rest[k];
          assert vs[j + 1] == rest[k];
        }
        var r := [vs[0]] + rest;
        assert forall k :: 1 <= k < |r| ==> r[k] == rest[k - 1];
      }
    }
  }

  /** The ids in `keys` whose connection is open, in the order of `keys`. */
  function OpenPeers(keys: seq<string>, conns: map<string, DataConn>): (r: seq<string>)
    ensures |r| <= |keys|
  {
    if |keys| == 0 then []
    else
      var last := keys[|keys| - 1];
      OpenPeers(keys[..|keys| - 1], conns) + (if last in conns && conns[last].open then [last] else [])
  }

  /** A broadcast reaches a peer exactly when it is a key whose connection is open. */
  lemma {:induction false} OpenPeersMembers(keys: seq<string>, conns: map<string, DataConn>, id: string)
    ensures id in OpenPeers(keys, conns) <==> id in keys && id in conns && conns[id].open
    decreases |keys|
  {
    if |keys| > 0 {
      var init := keys[..|keys| - 1];
      OpenPeersMembers(init, conns, id);
      assert keys == init + [keys[|keys| - 1]];
    }
  }

  /** With distinct keys, no peer receives a broadcast twice. */
  lemma {:induction false} OpenPeersDistinct(keys: seq<string>, conns: map<string, DataConn>)
    requires Distinct(keys)
    ensures Distinct(OpenPeers(keys, conns))
    decreases |keys|
  {
    if |keys| > 0 {
      var init := keys[..|keys| - 1];
      var last := keys[|keys| - 1];
      OpenPeersDistinct(init, conns);
      OpenPeersMembers(init, conns, last);
      assert last !in init by {
        assert forall i :: 0 <= i < |init| ==> init[i] == keys[i];
      }
    }
  }

  /** The calls `handleFile` places, one per key in order, each carrying `s`. */
  function CallsTo(ids: seq<string>, s: MediaStream): seq<PlacedCall> {
    seq(|ids|, i requires 0 <= i < |ids| => PlacedCall(ids[i], s, false))
  }

  /**
   * The viewer-list updates `handleFile` queues, one per key in order, the
   * `i`th recording call number `first + i`.
   */
  function AddCalls(vs: seq<ViewerEntry>, ids: seq<string>, first: nat): (r: seq<ViewerEntry>)
    ensures |vs| <= |r| <= |vs| + |ids|
  {
    if |ids| == 0 then vs
    else
      AddIfAbsent(AddCalls(vs, ids[..|ids| - 1], first), ViewerEntry(ids[|ids| - 1], Some(first + |ids| - 1)))
  }

  /** One more key places one more call. */
  lemma CallsToStep(ids: seq<string>, s: MediaStream, i: nat)
    requires i < |ids|
    ensures CallsTo(ids[..i + 1], s) == CallsTo(ids[..i], s) + [PlacedCall(ids[i], s, false)]
  {
    assert ids[..i + 1][i] == ids[i];
  }

  /** One more key queues one more viewer-list update, numbered `first + i`. */
  lemma AddCallsStep(vs: seq<ViewerEntry>, ids: seq<string>, first: nat, i: nat)
    requires i < |ids|
    ensures AddCalls(vs, ids[..i + 1], first)
         == AddIfAbsent(AddCalls(vs, ids[..i], first), ViewerEntry(ids[i], Some(first + i)))
  {
    assert ids[..i + 1][..i] == ids[..i];
  }

  /**
   * The fan-out loop of `handleFile`: one call per id in order, each recorded
   * in the call log and queued as a viewer-list update with its call number.
   */
  method PlaceCalls(ids: seq<string>, s: MediaStream, calls: seq<PlacedCall>, viewers: seq<ViewerEntry>)
    returns (calls': seq<PlacedCall>, viewers': seq<ViewerEntry>)
    ensures calls' == calls + CallsTo(ids, s)
    ensures viewers' == AddCalls(viewers, ids, |calls|)
  {
    calls', viewers' := calls, viewers;
    for i := 0 to |ids|
      invariant calls' == calls + CallsTo(ids[..i], s)
      invariant viewers' == AddCalls(viewers, ids[..i], |calls|)
    {
      CallsToStep(ids, s, i);
      AddCallsStep(viewers, ids, |calls|, i);
      calls' := calls' + [PlacedCall(ids[i], s, false)];
      viewers' := AddIfAbsent(viewers', ViewerEntry(ids[i], Some(|calls'| - 1)));
    }
    assert ids[..|ids|] == ids;
  }

  /** After the fan-out every called id is listed, and the ids are still distinct. */
  lemma {:induction false} AddCallsListsAll(vs: seq<ViewerEntry>, ids: seq<string>, first: nat)
    requires DistinctIds(vs)
    ensures DistinctIds(AddCalls(vs, ids, first))
    ensures forall i :: 0 <= i < |ids| ==> HasId(AddCalls(vs, ids, first), ids[i])
    decreases |ids|
  {
    if |ids| > 0 {
      var init := ids[..|ids| - 1];
      var before := AddCalls(vs, init, first);
      var e := ViewerEntry(ids[|ids| - 1], Some(first + |ids| - 1));
      AddCallsListsAll(vs, init, first);
      AddIfAbsentKeepsDistinct(before, e);
      forall i | 0 <= i < |ids| - 1
        ensures HasId(AddCalls(vs, ids, first), ids[i])
      {
        assert ids[i] == init[i];
        var j :| 0 <= j < |before| && before[j].id == ids[i];
        assert AddIfAbsent(before, e)[j] == before[j];
      }
    }
  }

  /** When every called id is already listed, the fan-out leaves the list as it was. */
  lemma {:induction false} AddCallsAllListed(vs: seq<ViewerEntry>, ids: seq<string>, first: nat)
    requires forall i :: 0 <= i < |ids| ==> HasId(vs, ids[i])
    ensures AddCalls(vs, ids, first) == vs
    decreases |ids|
  {
    if |ids| > 0 {
      var init := ids[..|ids| - 1];
      assert forall i :: 0 <= i < |init| ==> init[i] == ids[i];
      AddCallsAllListed(vs, init, first);
    }
  }

  /** The host room component's state. */
  class HostRoom {
    var viewers: seq<ViewerEntry>
    /** `Object.keys(dataConnsRef.current)`: the ids in insertion order. */
    var keys: seq<string>
    var conns: map<string, DataConn>
    var stream: Option<MediaStream>
    /** Every media call placed, in order; a viewer entry's call is an index into it. */
    var calls: seq<PlacedCall>
    var isPlaying: bool
    /** `videoRef.current`. */
    const video: VideoElement?
    /**
     * The `peer` state seen by the data handlers: they close over the value it
     * had when the set-up effect ran, which is `null` on mount.
     */
    const capturedPeer: bool

    predicate Valid()
      reads this
    {
      && Distinct(keys)
      && conns.Keys == (set k | k in keys)
      && DistinctIds(viewers)
    }

    constructor (video: VideoElement?, capturedPeer: bool)
      ensures this.video == video && this.capturedPeer == capturedPeer
      ensures viewers == [] && keys == [] && conns == map[] && stream == None && calls == [] && !isPlaying
      ensures Valid()
    {
      this.video := video;
      this.capturedPeer := capturedPeer;
      viewers := [];
      keys := [];
      conns := map[];
      stream := None;
      calls := [];
      isPlaying := false;
    }

    /** A viewer opens a data connection: it replaces any earlier one and the viewer is listed. */
    method OnConnection(peerId: string, handle: nat)
      requires Valid()
      modifies this
      ensures Valid()
      ensures conns == old(conns)[peerId := DataConn(handle, false)]
      ensures keys == if peerId in old(keys) then old(keys) else old(keys) + [peerId]
      ensures viewers == AddIfAbsent(old(viewers), ViewerEntry(peerId, None))
      ensures stream == old(stream) && calls == old(calls) && isPlaying == old(isPlaying)
    {
      AddIfAbsentKeepsDistinct(viewers, ViewerEntry(peerId, None));
      conns := conns[peerId := DataConn(handle, false)];
      if peerId !in keys {
        keys := keys + [peerId];
      }
      viewers := AddIfAbsent(viewers, ViewerEntry(peerId, None));
    }

    /**
     * The connection object `handle` opens or closes; a connection that has
     * since been replaced in the map no longer matters.
     */
    method SetOpen(peerId: string, handle: nat, open: bool)
      requires Valid()
      modifies this
      ensures Valid()
      ensures conns == if peerId in old(conns) && old(conns)[peerId].handle == handle
        then old(conns)[peerId := DataConn(handle, open)] else old(conns)
      ensures keys == old(keys) && viewers == old(viewers) && stream == old(stream)
      ensures calls == old(calls) && isPlaying == old(isPlaying)
    {
      if peerId in conns && conns[peerId].handle == handle {
        conns := conns[peerId := DataConn(handle, open)];
      }
    }

    /** `broadcast(msg)`: send to every open connection, skipping the others. */
    method Broadcast(msg: Msg) returns (out: Sent)
      requires Valid()
      ensures out.msg == msg && out.to == OpenPeers(keys, conns)
      ensures forall id :: id in out.to <==> id in conns && conns[id].open
      ensures Distinct(out.to)
    {
      var to: seq<string> := [];
      for i := 0 to |keys|
        invariant to == OpenPeers(keys[..i], conns)
      {
        assert keys[..i + 1][..i] == keys[..i];
        var id := keys[i];
        if id in conns && conns[id].open {
          to := to + [id];
        }
      }
      assert keys[..|keys|] == keys;
      forall id
        ensures id in to <==> id in conns && conns[id].open
      {
        OpenPeersMembers(keys, conns, id);
      }
      OpenPeersDistinct(keys, conns);
      out := Sent(msg, to);
    }

    /** The guard of the data handler: when a viewer's message makes the host call it. */
    predicate CallsOnMessage(msg: Msg)
      reads this
    {
      msg.ReadyForStream? && stream.Some? && capturedPeer
    }

    /**
     * A message arrives from a viewer. Only `ready-for-stream` with a stream and
     * a peer places a call; the viewer is then listed, with the call only if it
     * was not listed yet.
     */
    method OnViewerData(msg: Msg)
      requires Valid()
      modifies this
      ensures Valid()
      ensures old(CallsOnMessage(msg)) ==>
        && calls == old(calls) + [PlacedCall(msg.id, old(stream).value, true)]
        && viewers == AddIfAbsent(old(viewers), ViewerEntry(msg.id, Some(|old(calls)|)))
      ensures !old(CallsOnMessage(msg)) ==> calls == old(calls) && viewers == old(viewers)
      ensures keys == old(keys) && conns == old(conns) && stream == old(stream) && isPlaying == old(isPlaying)
    {
      if CallsOnMessage(msg) {
        var handle := |calls|;
        AddIfAbsentKeepsDistinct(viewers, ViewerEntry(msg.id, Some(handle)));
        calls := calls + [PlacedCall(msg.id, stream.value, true)];
        viewers := AddIfAbsent(viewers, ViewerEntry(msg.id, Some(handle)));
      }
    }

    /**
     * A run of messages from viewers. While the handlers see the `null` peer
     * they captured on mount, no message places a call or changes the list.
     */
    method ReceiveAll(msgs: seq<Msg>)
      requires Valid()
      modifies this
      ensures Valid()
      ensures !capturedPeer ==> calls == old(calls) && viewers == old(viewers)
      ensures keys == old(keys) && conns == old(conns) && stream == old(stream) && isPlaying == old(isPlaying)
    {
      for i := 0 to |msgs|
        invariant Valid()
        invariant !capturedPeer ==> calls == old(calls) && viewers == old(viewers)
        invariant keys == old(keys) && conns == old(conns) && stream == old(stream) && isPlaying == old(isPlaying)
      {
        OnViewerData(msgs[i]);
      }
    }

    /** Call `handle` closes: a call placed on request removes every entry of its callee. */
    method OnCallClose(handle: nat)
      requires Valid() && handle < |calls|
      modifies this
      ensures Valid()
      ensures calls == old(calls) && isPlaying == old(isPlaying)
      ensures keys == old(keys) && conns == old(conns) && stream == old(stream)
      ensures viewers == if calls[handle].removesViewerOnClose
        then RemoveId(old(viewers), calls[handle].to) else old(viewers)
      ensures !calls[handle].removesViewerOnClose || !HasId(viewers, calls[handle].to)
    {
      if calls[handle].removesViewerOnClose {
        RemoveIdKeepsDistinct(viewers, calls[handle].to);
        viewers := RemoveId(viewers, calls[handle].to);
      }
    }

    /**
     * `handleFile`: loading the new file into the video element resets its
     * position to 0 and its rate to the default 1, and `play()` unpauses it;
     * this happens whether or not a stream can be captured. `capture` is what
     * `captureStream()` then gave, `None` where the browser lacks it. With a
     * stream, every connected id is called once, in key order.
     */
    method HandleFile(capture: Option<MediaStream>)
      requires Valid()
      modifies this`stream, this`calls, this`viewers, video
      ensures Valid()
      ensures video != null ==>
        && video.currentTime == 0.0 && !video.paused && video.playbackRate == 1.0
        && video.srcObject == old(video.srcObject)
      ensures video == null || capture.None? ==>
        stream == old(stream) && calls == old(calls) && viewers == old(viewers)
      ensures video != null && capture.Some? ==>
        && stream == capture
        && calls == old(calls) + CallsTo(keys, capture.value)
        && viewers == AddCalls(old(viewers), keys, |old(calls)|)
    {
      if video == null {
        return;
      }
      video.currentTime, video.playbackRate := 0.0, 1.0;
      video.paused := false;
      if capture.None? {
        return;
      }
      var s := capture.value;
      var cs, vs := PlaceCalls(keys, s, calls, viewers);
      AddCallsListsAll(viewers, keys, |calls|);
      stream, calls, viewers := Some(s), cs, vs;
    }

    /** A viewer calls the host: answered with the stream when there is one, else with no media. */
    method OnIncomingCall() returns (response: CallResponse)
      ensures response == Answer(stream)
    {
      if stream.Some? {
        response := Answer(stream);
      } else {
        response := Answer(None);
      }
    }

    /** The play button: plays the video, if any, and broadcasts `play` with its time. */
    method HandlePlay(now: int) returns (out: Sent)
      requires Valid()
      modifies this, video
      ensures Valid() && isPlaying
      ensures video != null ==>
        !video.paused && video.currentTime == old(video.currentTime)
        && video.playbackRate == old(video.playbackRate) && video.srcObject == old(video.srcObject)
        && out.msg == Play(now, Some(video.currentTime))
      ensures video == null ==> out.msg == Play(now, None)
      ensures out.to == OpenPeers(keys, conns)
      ensures viewers == old(viewers) && keys == old(keys) && conns == old(conns)
      ensures stream == old(stream) && calls == old(calls)
    {
      var time: Option<real> := None;
      if video != null {
        video.paused := false;
        time := Some(video.currentTime);
      }
      isPlaying := true;
      out := Broadcast(Play(now, time));
    }

    /** The pause button: pauses the video, if any, and broadcasts `pause` with its time. */
    method HandlePause(now: int) returns (out: Sent)
      requires Valid()
      modifies this, video
      ensures Valid() && !isPlaying
      ensures video != null ==>
        video.paused && video.currentTime == old(video.currentTime)
        && video.playbackRate == old(video.playbackRate) && video.srcObject == old(video.srcObject)
        && out.msg == Pause(now, Some(video.currentTime))
      ensures video == null ==> out.msg == Pause(now, None)
      ensures out.to == OpenPeers(keys, conns)
      ensures viewers == old(viewers) && keys == old(keys) && conns == old(conns)
      ensures stream == old(stream) && calls == old(calls)
    {
      var time: Option<real> := None;
      if video != null {
        video.paused := true;
        time := Some(video.currentTime);
      }
      isPlaying := false;
      out := Broadcast(Pause(now, time));
    }

    /** The restart button: back to 0 and a `seek` to 0 for everyone; nothing without a video. */
    method HandleRestart(now: int) returns (out: Option<Sent>)
      requires Valid()
      modifies video
      ensures video == null ==> out == None
      ensures video != null ==>
        && video.currentTime == 0.0 && video.paused == old(video.paused)
        && video.playbackRate == old(video.playbackRate) && video.srcObject == old(video.srcObject)
        && out == Some(Sent(Seek(now, Some(0.0)), OpenPeers(keys, conns)))
    {
      out := None;
      if video != null {
        video.currentTime := 0.0;
        var sent := Broadcast(Seek(now, Some(0.0)));
        out := Some(sent);
      }
    }

    /** One run of the two-second interval: broadcast the video's time, if there is a video. */
    method TimeTick(now: int) returns (out: Option<Sent>)
      requires Valid()
      ensures video == null ==> out == None
      ensures video != null ==> out == Some(Sent(Time(now, Some(video.currentTime)), OpenPeers(keys, conns)))
    {
      out := None;
      if video != null {
        var sent := Broadcast(Time(now, Some(video.currentTime)));
        out := Some(sent);
      }
    }
  }
}
