/** The JSON payloads exchanged over a PeerJS data connection, by `type`. */
module Messages {
  import opened Common

  /**
   * `ts` is the sender's `Date.now()`; `currentTime` is absent when the sender
   * had no video element (`videoRef.current?.currentTime` is `undefined`).
   */
  datatype Msg =
    | Play(ts: int, currentTime: Option<real>)
    | Pause(ts: int, currentTime: Option<real>)
    | Seek(ts: int, currentTime: Option<real>)
    | Time(ts: int, currentTime: Option<real>)
    | Subtitle(text: string)
    | ReadyForStream(id: string)
    | Other(kind: string)
}
