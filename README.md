# P2P cinema: synchronised playback, viewer registry, subtitles and push-to-talk

A host plays a video file (or shares its screen) and streams it to viewers over
peer-to-peer media calls. A data channel per viewer carries playback commands
(`play`, `pause`, `seek`, a periodic `time`) and subtitle text. This project
models the parts of that system whose behaviour can be stated exactly, and
proves properties of them.

- **Subtitle cue engine** (module `Subtitles`, with the JavaScript string
  primitives it uses in module `Text`). An uploaded SubRip-style text is split
  into chunks on the exact two characters `\n\n`. Each chunk is split into lines
  on `\n`. A chunk of three or more lines becomes a cue: the second line is split
  on ` --> ` into start and end, and lines three onward are joined with single
  spaces. `parseTime` replaces the first comma by a point, splits on `:`, reads
  the fields with JavaScript's `Number`, and computes `h·3600 + m·60 + s`.
  A file of well-formed cue blocks separated by blank lines parses back to
  exactly its cues (`Subtitles.SheetRoundTrip`); a file that ends with a single
  line break is outside that statement, since the break adds an empty last line
  to the last block.
  A lookup returns the first cue whose closed interval holds the playback time,
  or `""`. A 500 ms tick shows that text and, on the host, broadcasts it.
- **Viewer playback sync** (module `Viewer`). A dispatcher applies host
  messages to the viewer's video element. The drift rule is:
  - drift over 0.5 s: seek to the host's time;
  - drift over 0.05 s: set the rate to 1.02 or 0.98;
  - otherwise: do nothing.

  A one-second timer later puts back the rate saved when the nudge began.
- **Host registry and broadcast** (module `Host`). The host keeps a viewer list
  that stays duplicate-free through add-if-absent, and a connection map keyed by
  peer id in which a reconnection overwrites the old entry. A broadcast sends
  to the open connections only. Media calls are placed on a viewer's
  `ready-for-stream` message and, when a video file is loaded, to every
  connected id.
- **Local microphone hook** (module `LocalAudioHook`). The hook acquires a
  microphone stream when the component has a role, starts it muted, and flips
  `enabled` on its audio tracks in place.
- **Host screen-share controls** (module `Controls`). These cover the guarded
  start and stop of a screen share whose stream combines screen video,
  microphone audio and local audio, the answer-or-close rule for inbound calls,
  and the Space-key push-to-talk.

Shared vocabulary:

- `Common`: `Option`, `Result`, `Abs`.
- `Media`: tracks as objects, so that enabling and stopping act in place and two
  streams can share a track. Streams are sequences of tracks. Also the video
  element, and the answer to a media call.
- `Messages`: the data-channel messages.

JavaScript numbers are exact reals, with NaN kept as its own value (`Text.Num`).
Timers become explicit steps: `Tick`, `TimeTick` and `Restore`. Browser and
network calls become parameters: the `capture` stream, the
`micCapture`/`screenCapture` results, and `now` for `Date.now()`.

Behaviour worth knowing, each stated by a member below:

- **A double nudge sticks**, in the code's own logic. Two nudges inside one
  second leave the viewer at the nudged rate once both timers fire. The second timer saved the
  already-nudged rate (`Viewer.DoubleNudgeKeepsNudgedRate`).
- **The first entry for an id wins.** The entry added on connection has no call,
  so the call placed later for the same viewer is never recorded in the list
  (`Host.ConnectionFirstLosesCall`).
- **`ready-for-stream` never places a call.** The data handler reads the `peer`
  state captured when the set-up effect ran, and that is `null` on mount. The
  model makes this captured value a constructor parameter, the guard reads it
  (`Host.HostRoom.CallsOnMessage`), and with it `null` no run of viewer messages
  places a call or changes the viewer list (`Host.HostRoom.ReceiveAll`).
- **Stopping a share stops the local microphone too.** The combined stream holds
  the local microphone's own track objects (`Controls.CombineSharesLocalAudio`).
  Stopping keeps the stored stream, so later calls are still answered with it
  (`Controls.HostControls.StopScreenShare`).

In three places the code's behaviour is narrower than a reader might expect:

- The rate nudge restores the rate saved when it began, not "normal speed".
- The calls placed when a file is loaded do not remove the viewer when they
  close; only calls placed on request do.
- Overlapping cues are resolved by taking the first one in file order.

## Model

| member | source | states |
|---|---|---|
| Text.Split | src/components/host/HostVideoWithSubtitles.tsx:29-33 | `s.split(sep)`: leftmost, non-overlapping matches, at least one piece; its properties are `Text.JoinSplit`, `Text.SplitPiecesLackSeparator`, `Text.SplitCount`, `Text.SplitSingle` and `Text.SplitJoinPieces` |
| Text.ReplaceFirst | src/components/host/HostVideoWithSubtitles.tsx:50 | `replace(",", ".")` keeps the length; `Text.ReplaceFirstAt` says which character changes |
| Text.NumberOf | src/components/host/HostVideoWithSubtitles.tsx:50 | `Number(field)`; its values are given by `Text.NumberOfDigits` and `Text.NumberOfDecimal` |
| Text.JoinSplit | src/components/host/HostVideoWithSubtitles.tsx:29-31 | `split` loses nothing: joining the pieces with the separator gives the input back |
| Text.SplitPiecesLackSeparator | src/components/host/HostVideoWithSubtitles.tsx:29-31 | no piece of `split` contains the separator |
| Text.SplitJoin | src/components/host/HostVideoWithSubtitles.tsx:31-33 | splitting a joined list returns the list when no part holds the separator's first character |
| Text.SplitSingle | src/components/host/HostVideoWithSubtitles.tsx:29 | a string without the separator splits into itself alone |
| Text.SplitCount | src/components/host/HostVideoWithSubtitles.tsx:33 | `split` yields a second piece exactly when the separator occurs |
| Text.ReplaceFirstAt | src/components/host/HostVideoWithSubtitles.tsx:50 | `replace(",", ".")` changes exactly the first comma and keeps every other character |
| Text.ReplaceFirstAfter | src/components/host/HostVideoWithSubtitles.tsx:50 | text before the first comma is copied unchanged |
| Text.FractionValue | src/components/host/HostVideoWithSubtitles.tsx:50 | the digits after a decimal point are worth at least 0 and less than 1 |
| Text.ThousandthsFraction | src/components/host/HostVideoWithSubtitles.tsx:48-51 | three fraction digits are thousandths of a second |
| Text.TrimUnspaced | src/components/host/HostVideoWithSubtitles.tsx:50 | `Number` trims nothing from a string that neither starts nor ends with white space |
| Text.NumberOfDigits | src/components/host/HostVideoWithSubtitles.tsx:50 | `Number` of a digit string is its decimal value |
| Text.NumberOfDecimal | src/components/host/HostVideoWithSubtitles.tsx:50 | `Number("i.f")` is the integer part plus the fraction; either part may be empty, but not both |
| Subtitles.ParseTime | src/components/host/HostVideoWithSubtitles.tsx:49-52 | `parseTime`; its value on stamps is `Subtitles.ParseTimeOfStamp`, and NaN on short stamps is `Subtitles.FewFieldsIsNaN` |
| Subtitles.ParseLines | src/components/host/HostVideoWithSubtitles.tsx:31-41 | one chunk's lines to a cue, nothing or the thrown error; described by `Subtitles.ChunkFails`, `Subtitles.ShortChunkIgnored`, `Subtitles.IndexLineIgnored` and `Subtitles.ChunkOfLines` |
| Subtitles.ParseChunk | src/components/host/HostVideoWithSubtitles.tsx:30-41 | the `map` callback over one chunk: its lines, then `Subtitles.ParseLines` |
| Subtitles.Outcomes | src/components/host/HostVideoWithSubtitles.tsx:30-41 | the `map` over the chunks, in order |
| Subtitles.ParseChunks | src/components/host/HostVideoWithSubtitles.tsx:30-42 | map then `filter(Boolean)`; `Subtitles.ParseChunksSucceeds` and `Subtitles.ParseChunksAppend` state its result |
| Subtitles.ParseCues | src/components/host/HostVideoWithSubtitles.tsx:28-43 | the whole upload pipeline; `Subtitles.SheetRoundTrip` is its round trip and `Subtitles.NoBlankLineIsOneChunk` its one-chunk case |
| Subtitles.StampFields | src/components/host/HostVideoWithSubtitles.tsx:50 | a stamp `HH:MM:SS,mmm` yields the fields `HH`, `MM` and `SS.mmm` |
| Subtitles.ParseTimeOfStamp | src/components/host/HostVideoWithSubtitles.tsx:49-52 | `parseTime("HH:MM:SS,mmm")` is `HH·3600 + MM·60 + SS + 0.mmm` for digit fields of any width; an empty field reads as 0, provided seconds and milliseconds are not both empty |
| Subtitles.FewFieldsIsNaN | src/components/host/HostVideoWithSubtitles.tsx:50-51 | a time with fewer than three `:`-fields is NaN, because a missing operand is `undefined` |
| Subtitles.ChunkFails | src/components/host/HostVideoWithSubtitles.tsx:31-36 | a chunk throws exactly when it has three or more lines and its second line lacks ` --> ` |
| Subtitles.ShortChunkIgnored | src/components/host/HostVideoWithSubtitles.tsx:32-42 | a chunk of fewer than three lines yields no cue |
| Subtitles.IndexLineIgnored | src/components/host/HostVideoWithSubtitles.tsx:31-38 | the first line of a chunk plays no part in its cue |
| Subtitles.TimeLineSplit | src/components/host/HostVideoWithSubtitles.tsx:33 | `start --> end` splits back into start and end when neither holds a space |
| Subtitles.ChunkOfLines | src/components/host/HostVideoWithSubtitles.tsx:31-38 | lines whose second line is `start --> end` parse to the cue with those times and the remaining lines joined by spaces |
| Subtitles.WellFormedChunk | src/components/host/HostVideoWithSubtitles.tsx:28-42 | an index line, a time line and text lines give exactly the cue with those times and text |
| Text.SplitPiece | src/components/host/HostVideoWithSubtitles.tsx:29 | a piece in which no match can start, even with the separator after it, is split off whole |
| Text.SplitJoinPieces | src/components/host/HostVideoWithSubtitles.tsx:29 | splitting a joined list returns the list when no match of the separator can start inside a part |
| Subtitles.JoinedLinesSingleBreaks | src/components/host/HostVideoWithSubtitles.tsx:29-31 | break-free lines, all but the first non-empty, joined by `\n` hold no blank line and do not end with a break |
| Subtitles.SingleBreaksIsolate | src/components/host/HostVideoWithSubtitles.tsx:29 | such a text holds no `\n\n`, and no `\n\n` match can start inside it when a cue break follows |
| Subtitles.BlockSingleBreaks | src/components/host/HostVideoWithSubtitles.tsx:29-31 | a well-formed cue block holds no blank line and does not end with a break |
| Subtitles.SplitSheet | src/components/host/HostVideoWithSubtitles.tsx:29 | chunks without blank lines, joined by `\n\n`, split back into exactly those chunks |
| Subtitles.CollectAllCues | src/components/host/HostVideoWithSubtitles.tsx:40-42 | outcomes that are all cues filter to exactly those cues, in order |
| Subtitles.SheetRoundTrip | src/components/host/HostVideoWithSubtitles.tsx:28-43 | a file of well-formed blocks separated by blank lines parses to exactly their cues, in order; the empty file to no cues |
| Subtitles.NoBlankLineIsOneChunk | src/components/host/HostVideoWithSubtitles.tsx:29 | a text without `\n\n`, such as a CRLF file, is one chunk |
| Subtitles.Collect | src/components/host/HostVideoWithSubtitles.tsx:40-42 | the filtered cue list is no longer than the list of chunks |
| Subtitles.CollectAppend | src/components/host/HostVideoWithSubtitles.tsx:40-42 | filtering two runs of outcomes is filtering each and concatenating; the first error wins |
| Subtitles.CollectSucceeds | src/components/host/HostVideoWithSubtitles.tsx:30-42 | filtering succeeds exactly when no outcome is an error |
| Subtitles.ParseChunksAppend | src/components/host/HostVideoWithSubtitles.tsx:28-42 | cues keep the order of their chunks: parsing two runs of chunks concatenates their cues |
| Subtitles.ParseChunksSucceeds | src/components/host/HostVideoWithSubtitles.tsx:28-43 | an upload succeeds exactly when no chunk throws |
| Subtitles.FirstCovering | src/components/host/HostVideoWithSubtitles.tsx:60-62 | the index found covers the time and no earlier cue does; none found means no cue covers it |
| Subtitles.SubtitleAt | src/components/host/HostVideoWithSubtitles.tsx:60-63 | the text shown is the first covering cue's, or `""` when no cue covers the time |
| Subtitles.OutsideCuesIsBlank | src/components/host/HostVideoWithSubtitles.tsx:60-63 | for ordered disjoint cues, a time before the first or after the last shows nothing |
| Subtitles.AtMostOneCovers | src/components/host/HostVideoWithSubtitles.tsx:60-62 | for ordered disjoint cues, at most one cue covers any time |
| Subtitles.TwoCueExample | src/components/host/HostVideoWithSubtitles.tsx:60-63 | cues 0–5 "Hello" and 10–15 "World" show "Hello" at 3, nothing at 7 and "World" at 12 |
| Subtitles.SubtitlePanel.Upload | src/components/host/HostVideoWithSubtitles.tsx:24-46 | a successful parse replaces the cues; a throwing one leaves them as they were |
| Subtitles.SubtitlePanel.Tick | src/components/host/HostVideoWithSubtitles.tsx:55-70 | with a video and cues, the tick shows the text at the video's time and broadcasts it only on the host; otherwise nothing runs |
| Viewer.CorrectionFor | src/components/viewer/ViewerRoom.tsx:126-141 | the drift rule's decision; `Viewer.CorrectionBands` states its three bands |
| Viewer.Sync | src/components/viewer/ViewerRoom.tsx:126-141 | `syncToHost` on the element's state; `Viewer.SyncJumps`, `Viewer.SyncNudges`, `Viewer.SyncHolds` and `Viewer.SyncConverges` state its effect |
| Viewer.RestoreRate | src/components/viewer/ViewerRoom.tsx:137-139 | the restore timer; `Viewer.NudgeThenRestore` and `Viewer.DoubleNudgeKeepsNudgedRate` state its effect |
| Viewer.Apply | src/components/viewer/ViewerRoom.tsx:102-121 | `handleHostMessage` on the element's state; `Viewer.ApplyPlay`, `Viewer.ApplyPauseAndSeek`, `Viewer.ApplyLeavesTime`, `Viewer.OnlyTimeNudges` and `Viewer.ApplyIdempotent` state its effect |
| Viewer.CorrectionBands | src/components/viewer/ViewerRoom.tsx:126-141 | the three drift bands, each as an if-and-only-if: jump above 0.5 s, faster or slower between 0.05 and 0.5 s, hold at most 0.05 s |
| Viewer.SyncJumps | src/components/viewer/ViewerRoom.tsx:130-133 | a large drift moves to the host's time and leaves the rate and the timers alone |
| Viewer.SyncNudges | src/components/viewer/ViewerRoom.tsx:134-139 | a moderate drift keeps the time and speeds up exactly when the host is ahead, saving the old rate for the timer |
| Viewer.SyncHolds | src/components/viewer/ViewerRoom.tsx:132-140 | a small drift, or a missing host time, changes nothing |
| Viewer.SyncConverges | src/components/viewer/ViewerRoom.tsx:130-134 | after a correction the viewer is within 0.5 s of the host |
| Viewer.NudgeThenRestore | src/components/viewer/ViewerRoom.tsx:135-139 | a single nudge followed by its timer gives back the original state |
| Viewer.DoubleNudgeKeepsNudgedRate | src/components/viewer/ViewerRoom.tsx:135-139 | from no pending timer, two nudges toward the same host time save the original and then the nudged rate, so after both timers fire the video keeps the nudged rate |
| Viewer.ApplyPlay | src/components/viewer/ViewerRoom.tsx:105-108 | `play` moves to the sent time when there is one, keeps the time otherwise, and unpauses |
| Viewer.OnlyTimeNudges | src/components/viewer/ViewerRoom.tsx:102-121 | only a `time` message can change the rate or start a timer |
| Viewer.ApplyPauseAndSeek | src/components/viewer/ViewerRoom.tsx:109-114 | `pause` pauses; `seek` moves to the sent time, and without a time changes nothing |
| Viewer.ApplyLeavesTime | src/components/viewer/ViewerRoom.tsx:109-120 | `pause` keeps the time; subtitle, ready-for-stream and unknown messages change nothing |
| Viewer.ApplyIdempotent | src/components/viewer/ViewerRoom.tsx:102-121 | a repeated `play`, `pause` or `seek` has the effect of one |
| Viewer.RepeatedTimeNudgesTwice | src/components/viewer/ViewerRoom.tsx:115-117 | a repeated `time` message in the nudge band starts two timers |
| Viewer.ViewerRoom.constructor | src/components/viewer/ViewerRoom.tsx:13-20 | a new room is not connected, has no stream and no pending timer |
| Viewer.ViewerRoom.SyncToHost | src/components/viewer/ViewerRoom.tsx:126-141 | the video element and the pending timers change as the drift rule says |
| Viewer.ViewerRoom.HandleHostMessage | src/components/viewer/ViewerRoom.tsx:102-121 | the element changes as the dispatcher says; with no element every message is ignored |
| Viewer.ViewerRoom.Restore | src/components/viewer/ViewerRoom.tsx:137-139 | the oldest timer puts back the rate it saved |
| Viewer.ViewerRoom.OnDataOpen | src/components/viewer/ViewerRoom.tsx:62-72 | opening the channel marks the viewer connected and sends exactly one `ready-for-stream` with its own id |
| Viewer.ViewerRoom.OnCall | src/components/viewer/ViewerRoom.tsx:75-78 | the host's call is answered without local media |
| Viewer.ViewerRoom.AttachStream | src/components/viewer/ViewerRoom.tsx:92-97 | with a video element, the stream is attached and plays from position 0 at the default rate 1 (assigning `srcObject` reloads the element), and `streamReady` is set; without one nothing changes |
| Host.AddIfAbsent | src/components/host/HostRoom.tsx:44-46 | the add-if-absent update; `Host.AddIfAbsentKeepsDistinct` and `Host.AddIfAbsentIdempotent` state its properties |
| Host.RemoveId | src/components/host/HostRoom.tsx:57-60 | the `filter` on close; `Host.RemoveIdMembers`, `Host.RemoveIdAppend` and `Host.RemoveIdKeepsDistinct` state its properties |
| Host.OpenPeers | src/components/host/HostRoom.tsx:125-129 | the recipients of a broadcast; `Host.OpenPeersMembers` and `Host.OpenPeersDistinct` state who they are |
| Host.CallsTo | src/components/host/HostRoom.tsx:110-115 | the calls of the fan-out, one per key, each carrying the stream |
| Host.AddCalls | src/components/host/HostRoom.tsx:116-118 | the list updates of the fan-out; `Host.AddCallsListsAll` and `Host.AddCallsAllListed` state their effect |
| Host.AddIfAbsentKeepsDistinct | src/components/host/HostRoom.tsx:44-46 | add-if-absent keeps the ids distinct and leaves the id listed |
| Host.AddIfAbsentIdempotent | src/components/host/HostRoom.tsx:62-66 | adding an id that is already listed changes nothing |
| Host.ConnectionFirstLosesCall | src/components/host/HostRoom.tsx:39-66 | after the call-less entry added on connection, the entry carrying the call is dropped |
| Host.RemoveIdMembers | src/components/host/HostRoom.tsx:59 | removal keeps exactly the entries with other ids |
| Host.RemoveIdAppend | src/components/host/HostRoom.tsx:59 | removal keeps the order of the remaining entries |
| Host.RemoveIdKeepsDistinct | src/components/host/HostRoom.tsx:59 | after removal the id is gone and the other ids stay distinct |
| Host.OpenPeersMembers | src/components/host/HostRoom.tsx:125-129 | a broadcast reaches an id exactly when its connection exists and is open |
| Host.OpenPeersDistinct | src/components/host/HostRoom.tsx:125-129 | no peer receives a broadcast twice |
| Host.PlaceCalls | src/components/host/HostRoom.tsx:110-119 | the fan-out places one call per connected id, in key order, and queues a list update for each |
| Host.AddCallsListsAll | src/components/host/HostRoom.tsx:110-119 | after the fan-out every called id is listed and the ids are still distinct |
| Host.AddCallsAllListed | src/components/host/HostRoom.tsx:116-118 | when every called id is already listed, the fan-out leaves the list unchanged |
| Host.HostRoom.constructor | src/components/host/HostRoom.tsx:18-25 | a new room has no viewers, no connections, no stream and is not playing |
| Host.HostRoom.OnConnection | src/components/host/HostRoom.tsx:39-46 | a connection from a known id overwrites its entry; a new id is appended to the keys; the viewer is listed without a call |
| Host.HostRoom.SetOpen | src/components/host/HostRoom.tsx:48-49 | only the connection object still in the map changes its open flag |
| Host.HostRoom.Broadcast | src/components/host/HostRoom.tsx:125-129 | a message goes to exactly the open connections, once each, in key order |
| Host.HostRoom.CallsOnMessage | src/components/host/HostRoom.tsx:53 | the data handler's guard: a call is placed exactly for `ready-for-stream` while a stream is held and the captured peer is set |
| Host.HostRoom.ReceiveAll | src/components/host/HostRoom.tsx:49-67 | with the captured peer `null`, as on mount, any run of viewer messages leaves the calls and the viewer list unchanged; the connections, keys and stream never change |
| Host.HostRoom.OnViewerData | src/components/host/HostRoom.tsx:49-67 | a call is placed only on `ready-for-stream` with a stream and a peer, and then the viewer is listed if absent |
| Host.HostRoom.OnCallClose | src/components/host/HostRoom.tsx:57-60 | a requested call's close removes every entry of its callee; a fan-out call's close changes nothing |
| Host.HostRoom.HandleFile | src/components/host/HostRoom.tsx:86-120 | with a video, the load moves it to 0 at rate 1 and `play()` unpauses it, whether or not a stream is captured; with a captured stream too, the stream is stored and every connected id is called once, in key order, and listed if absent; without a video, or without a stream, the room's stream, calls and viewers do not change |
| Host.HostRoom.OnIncomingCall | src/components/host/HostRoom.tsx:73-77 | an inbound call is answered with the stream if there is one, else without media |
| Host.HostRoom.HandlePlay | src/components/host/HostRoom.tsx:134-138 | play starts the video, keeping its time, rate and source, and broadcasts `play` with its time to the open connections |
| Host.HostRoom.HandlePause | src/components/host/HostRoom.tsx:140-144 | pause stops the video, keeping its time, rate and source, and broadcasts `pause` with its time to the open connections |
| Host.HostRoom.HandleRestart | src/components/host/HostRoom.tsx:146-151 | restart moves to 0, keeping the paused state, rate and source, and broadcasts `seek` to 0; without a video nothing happens |
| Host.HostRoom.TimeTick | src/components/host/HostRoom.tsx:156-164 | the interval broadcasts the video's time, and nothing without a video |
| Media.OfKind | src/hooks/useLocalAudio.ts:33 | `getAudioTracks` / `getVideoTracks`; `Media.OfKindMembers`, `Media.OfKindAppend` and `Media.OfKindOfKind` state its properties |
| Media.OfKindMembers | src/hooks/useLocalAudio.ts:33 | `getAudioTracks` returns exactly the stream's audio tracks |
| Media.OfKindAppend | src/components/host/host-controls.tsx:34-38 | selecting by kind distributes over concatenation |
| Media.OfKindOfKind | src/components/host/host-controls.tsx:34-38 | selecting one kind from tracks of another kind gives nothing |
| Media.SetEnabled | src/hooks/useLocalAudio.ts:33 | every listed track gets the new `enabled` value and nothing else changes |
| Media.StopAll | src/components/host/host-controls.tsx:53 | every listed track is ended and keeps its `enabled` value |
| LocalAudioHook.FallbackHasNoMic | src/hooks/useLocalAudio.ts:25-29 | the empty fallback stream has no track to toggle |
| LocalAudioHook.HeldAudioAreAudio | src/hooks/useLocalAudio.ts:33 | the toggled tracks are exactly the held stream's audio tracks |
| LocalAudioHook.LocalAudio.constructor | src/hooks/useLocalAudio.ts:4-6 | the hook starts holding no stream |
| LocalAudioHook.LocalAudio.Acquire | src/hooks/useLocalAudio.ts:8-30 | with a role, a granted stream is held with every audio track muted and a refusal holds an empty stream; without a role the held stream and the given tracks' flags do not change |
| LocalAudioHook.LocalAudio.EnableMic | src/hooks/useLocalAudio.ts:32-34 | every held audio track is enabled and the other tracks are untouched |
| LocalAudioHook.LocalAudio.DisableMic | src/hooks/useLocalAudio.ts:36-38 | every held audio track is disabled and the other tracks are untouched |
| Controls.Combine | src/components/host/host-controls.tsx:34-38 | the combined stream has one track per screen video, microphone audio and local audio track; `Controls.CombineByKind` and `Controls.CombineSharesLocalAudio` say which |
| Controls.CombineByKind | src/components/host/host-controls.tsx:34-38 | the combined stream's video is the screen's and its audio is the microphone's followed by the local audio |
| Controls.CombineSharesLocalAudio | src/components/host/host-controls.tsx:37 | the local audio tracks themselves are part of the combined stream |
| Controls.HostControls.constructor | src/components/host/host-controls.tsx:20-24 | the panel starts not talking, not sharing and with no stored stream |
| Controls.HostControls.StartScreenShare | src/components/host/host-controls.tsx:27-50 | while sharing, or when a capture fails, nothing changes; otherwise the combined stream is stored, passed to the parent, and both flags are set |
| Controls.HostControls.StopScreenShare | src/components/host/host-controls.tsx:52-58 | every stored track is stopped, the parent gets `null`, both flags clear, and the stored stream is kept |
| Controls.HostControls.HandleCall | src/components/host/host-controls.tsx:73-94 | an inbound call is answered with the stored stream, or closed when there is none; no handler exists without a peer |
| Controls.HostControls.KeyDown | src/components/host/host-controls.tsx:62 | Space sets `talking` and enables the microphone; other keys change nothing |
| Controls.HostControls.KeyUp | src/components/host/host-controls.tsx:63 | Space clears `talking` and disables the microphone; other keys change nothing |
| Controls.HostControls.Unmount | src/components/host/host-controls.tsx:97 | unmounting stops every track of the stored stream |

## Left out

- Viewer.ViewerRoom.SyncToHost: like `Viewer.ViewerRoom.HandleHostMessage` and `Viewer.ViewerRoom.Restore`, it models each assignment to `currentTime` and `playbackRate` as taking effect. Under the Media Capture and Streams standard, an element playing a `MediaStream` ignores these assignments: its position cannot be altered and its rate stays 1.0. The sync properties (`Viewer.SyncJumps`, `Viewer.SyncNudges`, `Viewer.SyncConverges`, `Viewer.DoubleNudgeKeepsNudgedRate`) describe the code's logic, not what such a browser shows.

- Floating point: times, rates and `Number` results are exact reals. Rounding is not modelled, so `0.1 + 0.2`-style effects do not appear.
- `Number` of a string covers surrounding white space, the empty string, a sign, and `digits`, `digits.`, `digits.digits` and `.digits`. Exponents, hexadecimal, octal and binary literals, and `Infinity` are read as NaN. These formats do not occur in SubRip time stamps.
- Timers and React scheduling: the 500 ms subtitle interval, the 2000 ms time interval and the 1000 ms restore timer are explicit steps (`Tick`, `TimeTick`, `Restore`). All restore timers share one delay, so they are modelled as a queue that fires oldest first. State setters take effect at once.
- `play()` is assumed to succeed: a rejected autoplay promise is ignored by the source, and the model always unpauses.
- Assigning `currentTime` is not clamped to the media's duration, and the element never reaches its end.
- The `await` points in `handleFile` and `startScreenShare` are not interleaved with other events. Each operation takes the settled capture results as parameters.
- Host.HostRoom.HandleFile: takes `peer!` to be non-null when a file is loaded.
- Host.HostRoom.HandleFile: the object URL in `src` and the `muted`, `playsInline` and `autoplay` flags are not modelled. The load is modelled only by its effect on the element: position 0 and the default rate 1.
- Host.HostRoom.HandleFile: uses the insertion order of the connection keys. `Object.keys` would list integer-like ids first.
- Host.HostRoom.Broadcast: sends in the insertion order of the connection keys, as do `HandlePlay`, `HandlePause`, `HandleRestart` and `TimeTick` through it. `Object.values` would visit integer-like ids first. The set of recipients is the same either way.
- Subtitles.SubtitlePanel.Tick: the interval reads `videoRef.current?.currentTime ?? 0` on each run. The model reads the time when a video element exists and does nothing otherwise, so the fallback to 0 for an element that disappears while the interval runs is not modelled.
- Controls.HostControls.StartScreenShare: when the screen capture fails after the microphone was granted, the source leaves that microphone stream running. The model does not represent the orphaned stream.
- The 3D scene, PeerJS session set-up and reconnection, the hidden `<audio>` element of the microphone hook, `alert` and console output are not part of this model: they are rendering, foreign-library calls or I/O.
- The file reader and `URL.createObjectURL` are not modelled: an upload starts from the file's text and a loaded video from its captured stream.
