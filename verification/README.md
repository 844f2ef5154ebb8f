# PureCloak: models and proofs

Dafny models of the parts of PureCloak that carry state, arithmetic or a protocol, and proofs about all their inputs
and all their runs. `dafny verify dfyconfig.toml` checks everything.

| files | what they model |
|---|---|
| `Wrappers`, `Collections`, `Division` | optional values; sequences and enumerations; remainders |
| `Bits`, `Noise`, `Selection`, `CanvasNoise`, `AudioNoise` | the 32-bit noise mixer, the selection of pixels and samples, and the in-place noise loops |
| `WebSocketCodec`, `WebSocketRoundTrip`, `CdpPipeline` | the WebSocket frame codec over a socket that moves any number of bytes per call, and the send-and-match loop of CDP commands |
| `Timestamps`, `Workspace`, `WorkspaceStore`, `WorkspaceStoreRuns`, `WorkspaceStoreRestart`, `WorkspaceImport` | times as ISO 8601 texts, workspaces and their dictionaries, the store with its file queue and late load, restarts, and imports |
| `Lifecycle`, `LifecycleRuns`, `LifecycleSafety` | the running-workspace manager and its watchdog, with starts split in two, polls, exits and observers that stop workspaces |
| `ProfileApplier`, `ProfileApplierRuns` | applying settings over CDP: polling, sending, health checks, reconnects and stale replies |
| `QuoteEscaping` | embedding text in single-quoted JavaScript literals |
| `ApiPaths`, `ApiDispatch`, `ApiResponses` | request paths, routes, and the hop between the API and the UI thread |
| `StoragePartition` | partition names and the choice of a profile for each resolution |

Objects whose methods update fields are classes. Each method's contract equates the object's new state with a step
function of the old one (or, where the order of a hash or tree walk is left open, with a relation). A run is a sequence
of states in which each follows from the one before by an enabled operation: calls, timer ticks, file tasks, background
replies and exits in any order. The theorems about runs are proved by invariants over those steps, for runs of any length.

Outside the model, and therefore parameters: what `send` and `recv` transfer, what a JSON text parses to, generated ids
and seeds, random masks, the clock, whether a write, a launch or an availability check succeeds, and when a child exits.

## Where the code and its descriptions differ

The models follow the code.

- `purecloak_prng.h:19` speaks of 255 noise values; there are 256 (`Noise.UniformNoise`). Line 29 and the
  comments of patches 0010 and 0011 give the float noise a range of 0.0001 to either side; it is half that
  (`Noise.FloatNoiseBounds`).
- The patches call the noise imperceptible; it is, once, but it accumulates when an image is read back repeatedly
  (`CanvasNoise.RepeatedNoiseAccumulates`).
- A frame above 1 MB is refused without being consumed, so the next read starts inside it
  (`WebSocketRoundTrip.OversizedFrameDesynchronises`); so does a close frame with a payload
  (`CloseFrameRead`).
- `cdp_websocket_client.cc:429` says that events are skipped; a command without an id, or with id -1, takes the first one for
  its response (`CdpPipeline.EventTakenExactly`). The commands the browser sends have ids from 0.
- `workspace_store.cc:90-93` promises that the late load keeps both sides. It does in memory, but it does not save: a
  create before the load overwrites the file, and the workspaces merged from it are lost at the next restart unless
  another save follows (`WorkspaceStoreRestart.LoadAfterSaveNeedsAnotherSave`, `RestartIsIdentityExactly`,
  `CreateBeforeLoadLosesTheFile`).
- The limit of ten workspaces is checked before the background task and not after it (`LifecycleSafety.LimitIsPassed`);
  two starts of one workspace lose a child (`StartIsSafeExactly`); `Stop` misses a pending start
  (`StopHoldsExactly`).
- After a reconnect the callback, already consumed, is run again (`ProfileApplierRuns.FaultsExactlyAfterReconnect`). An
  applier destroyed while its commands are being sent never closes the socket (`DestroyIsSafeExactly`).
- `anti_detection_engine.cc:608` escapes quotes but not backslashes (`QuoteEscaping.TimezonePreservedExactly`).
- `api_unittest.cc:13` calls its parser the same as the handler's; it drops empty segments (`ApiPaths.ParsersAgreeExactly`).
- `workspace_api_handler.cc:196` checks the bearer token for plain HTTP requests; upgrades at line 149 are relayed without
  it (`ApiDispatch.TreatedAlikeExactly`).
- `GET /api/workspaces/export` is taken for a workspace lookup (`ApiDispatch.ExportUnreachable`).

## Model

| member | source | states |
|---|---|---|
| Noise.UnmixMix | chromium_src/purecloak/common/purecloak_prng.h:21-26 | the 32-bit mixer has a left inverse, so no two arguments mix to the same word |
| Noise.MixUnmix | chromium_src/purecloak/common/purecloak_prng.h:21-26 | and a right inverse, so every word is reached: the mixer is a permutation of the 32-bit words |
| Noise.IndexPermutation | chromium_src/purecloak/common/purecloak_prng.h:21-26 | for every seed, exactly one index gives each mixed word |
| Noise.SeedPermutation | chromium_src/purecloak/common/purecloak_prng.h:21-26 | for every index, exactly one seed gives each mixed word |
| Noise.SeedShiftsStream | chromium_src/purecloak/common/purecloak_prng.h:22-23 | raising the seed by d shifts the stream of noise values by d * 0x9E3779B9 modulo 2^32 |
| Noise.EveryOccurrence | chromium_src/purecloak/common/purecloak_prng.h:24-26 | an index yields a noise value if and only if it is one of the 2^24 listed for that value |
| Noise.UniformNoise | chromium_src/purecloak/common/purecloak_prng.h:21-27 | for every seed, each value in [-128, 127] is the noise of exactly 2^24 indices and no other value occurs |
| Noise.FloatNoiseBounds | chromium_src/purecloak/common/purecloak_prng.h:29-32 | float noise is the integer noise over 2560000: it lies in [-0.00005, 0.00005), half the range its comment gives, and reaches -0.00005 exactly where the integer noise is -128 |
| Selection.PixelResidue | patches/0008-canvas-noise-base.patch:44-46 | row y selects exactly the columns of one residue class modulo 997 |
| Selection.SampleResidue | patches/0011-offline-audio-noise.patch:43-46 | a channel selects exactly the samples of one residue class modulo 97 |
| Selection.OnePixelPerWindow | patches/0008-canvas-noise-base.patch:42-46 | any 997 consecutive columns of a row hold exactly one selected pixel |
| Selection.OneSamplePerWindow | patches/0010-audio-buffer-noise.patch:36-41 | any 97 consecutive samples of a channel hold exactly one selected one |
| Selection.RowCountExact | patches/0008-canvas-noise-base.patch:43-46 | of the first w columns of row y exactly ceil((w - r)/997) are selected, for r = 826 y modulo 997 |
| Selection.StretchCount | patches/0008-canvas-noise-base.patch:43-46 | any stretch of k * 997 columns of a row, wherever it starts, holds exactly k selected ones |
| Selection.CanvasCountBounds | patches/0008-canvas-noise-base.patch:42-46 | a w-by-h canvas has between h * floor(w/997) and h * ceil(w/997) selected pixels |
| CanvasNoise.NudgePixel | patches/0008-canvas-noise-base.patch:47-60 | one selected pixel: each colour byte moves one level towards the sign of its own noise, clamped; nothing else changes |
| CanvasNoise.ApplyToPixmap | patches/0008-canvas-noise-base.patch:41-63 | the nested loops over a strided pixmap yield the noisy pixmap, byte by byte |
| CanvasNoise.ApplyToFlatBuffer | patches/0009-canvas-noise-export.patch:136-165 | the flat-offset loops yield the noisy buffer, byte by byte |
| CanvasNoise.PixmapAndFlatAgree | patches/0009-canvas-noise-export.patch:41-63 | the strided and the flat form agree on every image of minimal stride |
| CanvasNoise.PixmapPixel | patches/0009-canvas-noise-export.patch:47-60 | the noisy pixmap changes the three colour bytes of a selected pixel by their own noise, and keeps alpha |
| CanvasNoise.FlatPixel | patches/0009-canvas-noise-export.patch:143-162 | the same for the flat buffer |
| CanvasNoise.ColourNoiseIndex | patches/0008-canvas-noise-base.patch:44-60 | channel c of a selected pixel (x, y) moves one level by the sign of the noise at index y * w + x + c, modulo 2^32, and is clamped |
| CanvasNoise.PaddingKept | patches/0008-canvas-noise-base.patch:42-47 | bytes between the end of a row and the next row are untouched |
| CanvasNoise.TailKept | patches/0008-canvas-noise-base.patch:42-47 | bytes after the last row of a pixmap are untouched |
| CanvasNoise.NoiseIsImperceptible | patches/0008-canvas-noise-base.patch:38-60 | no byte moves by more than 1; a byte changes if and only if it is a colour byte of a selected pixel with non-zero noise that does not push it out of range |
| CanvasNoise.RepeatedNoiseAccumulates | patches/0008-canvas-noise-base.patch:72-74 | reading back n times moves each byte n levels along its noise until it saturates: the noise is not idempotent |
| AudioNoise.ApplyToChannel | patches/0010-audio-buffer-noise.patch:36-42 | the sample loop adds the noise of (s + channel * length) to the selected samples and to no others |
| AudioNoise.ChannelFromBus | patches/0010-audio-buffer-noise.patch:34-43 | a channel built from a bus is the bus's samples plus the noise |
| AudioNoise.ApplyToRenderedBuffer | patches/0011-offline-audio-noise.patch:36-50 | every channel of a rendered buffer gets its own noise |
| AudioNoise.SampleNoiseIndex | patches/0011-offline-audio-noise.patch:43-46 | a selected sample s of a channel gets the noise at index s + channel * length, modulo 2^32, over 2560000; any other gets none |
| AudioNoise.NoiseIsInaudible | patches/0011-offline-audio-noise.patch:43-47 | no sample moves by more than 0.00005, and at most one of any 97 consecutive samples moves |
| WebSocketCodec.SendAll | chromium_src/purecloak/content/cdp_websocket_client.cc:69-80 | sends the whole buffer whatever the sizes of the partial sends; on failure only a prefix of it was sent |
| WebSocketCodec.RecvAll | chromium_src/purecloak/content/cdp_websocket_client.cc:83-94 | fills the whole buffer whatever the sizes of the partial reads, and consumes exactly that many bytes |
| WebSocketCodec.SendFrame | chromium_src/purecloak/content/cdp_websocket_client.cc:197-239 | a successful send appends exactly the client frame of RFC 6455, section 5.2: FIN, text, masked |
| WebSocketCodec.AppendLength | chromium_src/purecloak/content/cdp_websocket_client.cc:211-225 | the three length encodings, the last by a 64-bit shift loop, equal the length field |
| WebSocketCodec.ReadFrame | chromium_src/purecloak/content/cdp_websocket_client.cc:242-315 | refines the reference reader on every stream and every chunking: payload and consumed bytes |
| WebSocketCodec.ReadLength | chromium_src/purecloak/content/cdp_websocket_client.cc:262-279 | the length parser, its shift loop included, equals the big-endian reading of the field |
| WebSocketCodec.Unmask | chromium_src/purecloak/content/cdp_websocket_client.cc:302-307 | the in-place loop is the masking function |
| WebSocketCodec.ReadBody | chromium_src/purecloak/content/cdp_websocket_client.cc:286-307 | mask and payload are read whole; the payload is unmasked in place |
| WebSocketCodec.BigEndianRoundTrip | chromium_src/purecloak/content/cdp_websocket_client.cc:221-224 | writing a length of up to 8 bytes big-endian and reading it back is the identity |
| WebSocketCodec.BigEndianDigit | chromium_src/purecloak/content/cdp_websocket_client.cc:217-224 | byte i of k is the digit of weight 256^(k - 1 - i) |
| WebSocketCodec.MaskTwice | chromium_src/purecloak/content/cdp_websocket_client.cc:233-236 | masking is its own inverse (RFC 6455, section 5.3) |
| WebSocketRoundTrip.LengthRoundTrip | chromium_src/purecloak/content/cdp_websocket_client.cc:211-279 | every length is read back from its field, whatever follows |
| WebSocketRoundTrip.LengthFieldIsMinimal | chromium_src/purecloak/content/cdp_websocket_client.cc:211-225 | no encoding the reader accepts for a length is shorter than the one sent (RFC 6455, section 5.2) |
| WebSocketRoundTrip.ReadableFrameRoundTrip | chromium_src/purecloak/content/cdp_websocket_client.cc:242-315 | every frame of at most 1 MB except a close frame is consumed whole: data frames yield their payload, pings and pongs nothing (RFC 6455, section 5.5) |
| WebSocketRoundTrip.OversizedFrameDesynchronises | chromium_src/purecloak/content/cdp_websocket_client.cc:281-284 | after a larger frame the reader is left in front of its mask and payload, out of step |
| WebSocketRoundTrip.CloseFrameRead | chromium_src/purecloak/content/cdp_websocket_client.cc:251-254 | of a close frame only two bytes are read, which is all of it if and only if it is unmasked and empty |
| WebSocketRoundTrip.FrameConsumedExactly | chromium_src/purecloak/content/cdp_websocket_client.cc:242-315 | a frame of any kind is consumed whole, no more and no less, if and only if it is not a close frame and has at most 1 MB, or is an unmasked empty close frame |
| WebSocketRoundTrip.ClientFrameRoundTrip | chromium_src/purecloak/content/cdp_websocket_client.cc:197-239 | what SendFrame sends is read back, and consumed exactly, if and only if it has at most 1 MB |
| WebSocketRoundTrip.ClientFrameBytes | chromium_src/purecloak/content/cdp_websocket_client.cc:205-236 | every byte of a client frame: FIN, no reserved bit and opcode 1; mask bit and length; the mask; and each payload octet xored with its mask octet (RFC 6455, sections 5.2 and 5.3) |
| WebSocketRoundTrip.StreamRoundTrip | chromium_src/purecloak/content/cdp_websocket_client.cc:242-315 | the concatenation of any readable frames is read back in order and consumed exactly |
| WebSocketRoundTrip.ReadFrames | chromium_src/purecloak/content/cdp_websocket_client.cc:242-315 | n calls of ReadFrame on a reliable socket return and leave what n reads of the reference reader do |
| WebSocketRoundTrip.ClientStreamRoundTrip | chromium_src/purecloak/content/cdp_websocket_client.cc:197-315 | any payloads of at most 1 MB, sent with any masks one after another, are read back in order and the rest of the stream is untouched |
| CdpPipeline.AwaitResponse | chromium_src/purecloak/content/cdp_websocket_client.cc:428-468 | reads at most 20 frames and returns the first that answers the expected id, having consumed exactly the frames up to it |
| CdpPipeline.RunCommands | chromium_src/purecloak/content/cdp_websocket_client.cc:419-474 | the command loop stops at the first failed send; until then every byte is the encoding of the commands and every response is the one AwaitAll gives |
| CdpPipeline.SendCommands | chromium_src/purecloak/content/cdp_websocket_client.cc:368-486 | returns the open socket if and only if every step up to the last send succeeds, otherwise closes an opened socket exactly once; matches commands to responses as AwaitAll does; an answered command with an id other than -1 gets a dictionary with that very id, any other command one without an id or with -1 |
| CdpPipeline.AwaitSkipsNoise | chromium_src/purecloak/content/cdp_websocket_client.cc:432-468 | up to 19 events, pings, malformed or stray replies before a response are skipped |
| CdpPipeline.EveryCommandAnswered | chromium_src/purecloak/content/cdp_websocket_client.cc:420-474 | if every command's response comes after at most 19 other frames, every command gets its own response |
| CdpPipeline.OwnResponsesFound | chromium_src/purecloak/content/cdp_websocket_client.cc:420-474 | commands that are each answered after at most 19 frames that are empty, malformed, events or replies with other ids get exactly the frames that carry their ids |
| CdpPipeline.EventTakenExactly | chromium_src/purecloak/content/cdp_websocket_client.cc:408-446 | an event is taken for the response if and only if the command has no id or id -1 |
| CdpPipeline.FoundWithinTwentyReads | chromium_src/purecloak/content/cdp_websocket_client.cc:432-474 | a response behind m other frames is found if and only if m < 20; otherwise the frames from the twentieth on stay in the stream for the next command |
| CdpPipeline.AllAnsweredExactly | chromium_src/purecloak/content/cdp_websocket_client.cc:420-474 | all commands of a batch are answered if and only if every response comes after fewer than 20 other frames |
| Workspace.ToDict | chromium_src/purecloak/browser/profiles/workspace.cc:105-183 | stores exactly the documented keys, leaving out defaults |
| Workspace.FromDict | chromium_src/purecloak/browser/profiles/workspace.cc:185-295 | the field-by-field assignments decode a dictionary: every missing or ill-typed key gives its default |
| Workspace.DictRoundTrip | chromium_src/purecloak/browser/profiles/workspace.cc:105-295 | decoding what ToDict stores restores every field and omitted default, up to runtime fields and milliseconds |
| Workspace.EveryKeyRead | chromium_src/purecloak/browser/profiles/workspace.cc:185-295 | each field is read from its own key, and each missing or ill-typed key gives the default of a new workspace: 1920 by 1080, clipboard sync on, colour 0xFF6366F1 |
| Workspace.EveryFieldRestored | chromium_src/purecloak/browser/profiles/workspace.cc:185-295 | the same for any dictionary that holds exactly the stored fields |
| Workspace.IdentityRoundTrip | chromium_src/purecloak/browser/profiles/workspace.cc:108-114 | the type string and the uint32 colour stored as a signed int are restored |
| Workspace.TagsRoundTrip | chromium_src/purecloak/browser/profiles/workspace.cc:85-101 | tags survive ToDict and FromDict |
| Timestamps.TimeRoundTrip | chromium_src/purecloak/browser/profiles/workspace.cc:49-79 | a time written as ISO 8601 and read back is the time cut to whole milliseconds, the null time included |
| Timestamps.Explode | chromium_src/purecloak/browser/profiles/workspace.cc:53-54 | the calendar fields are a valid date and time of day, and stand for the same millisecond |
| Timestamps.FieldsRoundTrip | chromium_src/purecloak/browser/profiles/workspace.cc:49-79 | every valid date and time of day is the calendar reading of its own instant |
| Timestamps.TextRoundTrip | chromium_src/purecloak/browser/profiles/workspace.cc:49-79 | the text of any valid time but the null instant is written back as it was read |
| Workspace.MetadataRoundTrip | chromium_src/purecloak/browser/profiles/workspace.cc:179-180 | timestamps survive up to the millisecond |
| Workspace.DictIsUnique | chromium_src/purecloak/browser/profiles/workspace.cc:105-183 | the stored fields determine the dictionary |
| Workspace.StoredAlike | chromium_src/purecloak/browser/profiles/workspace.cc:105-183 | workspaces with equal dictionaries agree on everything that is persisted |
| WorkspaceStore.WorkspaceStore.Init | chromium_src/purecloak/browser/profiles/workspace_store.cc:67-75 | queues the read behind the tasks already queued, and nothing else |
| WorkspaceStore.WorkspaceStore.SaveToDisk | chromium_src/purecloak/browser/profiles/workspace_store.cc:250-270 | queues one write that lists every workspace once |
| WorkspaceStore.WorkspaceStore.CreateWorkspace | chromium_src/purecloak/browser/profiles/workspace_store.cc:114-136 | fills in id, seed and times, stores, saves and announces |
| WorkspaceStore.WorkspaceStore.RenameWorkspace | chromium_src/purecloak/browser/profiles/workspace_store.cc:158-176 | changes name and update time of a stored workspace, else does nothing |
| WorkspaceStore.WorkspaceStore.UpdateWorkspace | chromium_src/purecloak/browser/profiles/workspace_store.cc:196-221 | replaces a stored workspace but for its type and creation time, else does nothing |
| WorkspaceStore.WorkspaceStore.DeleteWorkspace | chromium_src/purecloak/browser/profiles/workspace_store.cc:178-194 | removes a stored workspace and nothing else |
| WorkspaceStore.CreateEffect | chromium_src/purecloak/browser/profiles/workspace_store.cc:114-136 | a create stores its argument field by field, but for an empty id, a zero seed and both times, announces the record, and leaves every other record alone |
| WorkspaceStore.RenameEffect | chromium_src/purecloak/browser/profiles/workspace_store.cc:158-176 | a rename sets the name and the update time of a stored workspace and announces the record; every other field and record stays, and an unknown id changes nothing |
| WorkspaceStore.UpdateEffect | chromium_src/purecloak/browser/profiles/workspace_store.cc:196-221 | an update keeps the stored type and creation time, takes every other field from its argument, and leaves every other record alone |
| WorkspaceStore.DeleteEffect | chromium_src/purecloak/browser/profiles/workspace_store.cc:178-194 | a delete removes and announces one record, and leaves every other record alone |
| WorkspaceStore.WorkspaceStore.FlushStore | chromium_src/purecloak/browser/profiles/workspace_store.cc:241-244 | queues a write and changes nothing in memory |
| WorkspaceStore.WorkspaceStore.OnInitData | chromium_src/purecloak/browser/profiles/workspace_store.cc:77-112 | the fast path and the merge path |
| WorkspaceStore.WorkspaceStore.RunNextTask | chromium_src/purecloak/browser/profiles/workspace_store.cc:27-55 | the file runner takes its tasks in order; a failed write leaves the file alone |
| WorkspaceStore.WorkspaceStore.DeliverNextReply | chromium_src/purecloak/browser/profiles/workspace_store.cc:71-74 | delivers the result of the read to OnInitData |
| WorkspaceStoreRuns.LoadKeepsLast | chromium_src/purecloak/browser/profiles/workspace_store.cc:94-101 | the fast path keeps the last entry of each id |
| WorkspaceStoreRuns.MergeKeepsFirst | chromium_src/purecloak/browser/profiles/workspace_store.cc:102-111 | the merge path keeps memory and otherwise the first entry of each id |
| WorkspaceStoreRuns.PathsAgree | chromium_src/purecloak/browser/profiles/workspace_store.cc:94-111 | on an empty memory the two paths agree if and only if the first and the last entry of every id are equal |
| WorkspaceStoreRuns.MergeIsUnion | chromium_src/purecloak/browser/profiles/workspace_store.cc:102-111 | with distinct ids, merging adds exactly the entries whose id is free |
| WorkspaceStoreRuns.LoadMatchesReplay | chromium_src/purecloak/browser/profiles/workspace_store.cc:90-111 | the late load equals replaying the earlier events over the file if and only if no workspace on disk was touched and removed before it |
| WorkspaceStoreRuns.StepReplaysItsEvent | chromium_src/purecloak/browser/profiles/workspace_store.cc:114-221 | every call changes memory exactly by the event it announces |
| WorkspaceStoreRuns.StoreIsReplayOfEvents | chromium_src/purecloak/browser/profiles/workspace_store.cc:77-221 | in every interleaving of calls, file tasks and the late load, the initialised store is the replay of its events over the original file, given creates use ids not on disk |
| WorkspaceStoreRestart.SaveLoadsBack | chromium_src/purecloak/browser/profiles/workspace_store.cc:250-270 | loading a saved file gives the saved map, up to what is not persisted |
| WorkspaceStoreRestart.SavedIsWellFormed | chromium_src/purecloak/browser/profiles/workspace_store.cc:250-270 | a saved file lists no id twice |
| WorkspaceStoreRestart.FilesStayWellFormed | chromium_src/purecloak/browser/profiles/workspace_store.cc:77-270 | in every run, also when writes fail, a file without duplicates stays so, and so does the one a restart reads: the run theorems chain over restarts |
| WorkspaceStoreRestart.SaveSynchronises | chromium_src/purecloak/browser/profiles/workspace_store.cc:250-270 | after any step that saves, draining the queue makes the file load back as memory |
| WorkspaceStoreRestart.RestartIsIdentity | chromium_src/purecloak/browser/profiles/workspace_store.cc:77-270 | in every run whose writes succeed, once a save has followed the load, draining the queue and restarting gives the same map, up to what is not persisted |
| WorkspaceStoreRestart.LoadAfterSaveNeedsAnotherSave | chromium_src/purecloak/browser/profiles/workspace_store.cc:77-112 | a load that follows a save leaves the file up to date if and only if the file held no id that memory lacked: OnInitData does not save |
| WorkspaceStoreRestart.RestartIsIdentityExactly | chromium_src/purecloak/browser/profiles/workspace_store.cc:77-270 | in every run whose writes succeed, at any time after the load, a restart gives the same map if and only if a save followed the load, or none preceded it, or memory held every id of the file when it came |
| WorkspaceStoreRestart.CreateBeforeLoadLosesTheFile | chromium_src/purecloak/browser/profiles/workspace_store.cc:77-136 | a run in which one create before the load makes the next restart lose the workspace that was on disk |
| WorkspaceImport.ImportItem | chromium_src/purecloak/browser/api/workspace_api_handler.cc:1049-1063 | an item is imported if and only if it is a dictionary with a non-empty name, and then under the generated id |
| WorkspaceImport.ImportWorkspaces | chromium_src/purecloak/browser/api/workspace_api_handler.cc:1041-1068 | imported plus skipped is the number of items, and the store gains exactly one Added event per imported item, in order |
| WorkspaceImport.ListingImportsBack | chromium_src/purecloak/browser/api/workspace_api_handler.cc:1019-1064 | importing the listing of named workspaces adds a copy of each under its new id and changes nothing else |
| WorkspaceImport.CopyKeepsTheRest | chromium_src/purecloak/browser/api/workspace_api_handler.cc:1060-1062 | a copy keeps every persisted field but the id, the times, and a seed of zero, which is drawn anew |
| Lifecycle.Manager.Start | chromium_src/purecloak/browser/workspace_launcher.cc:147-223 | answers at once or leaves one pending continuation, as StartStep does |
| Lifecycle.Manager.ReplyAndContinueStart | chromium_src/purecloak/browser/workspace_launcher.cc:209-287 | the background reply: ContinueStart on a living manager, the failure callback on a dead one |
| Lifecycle.Manager.Stop | chromium_src/purecloak/browser/workspace_launcher.cc:289-323 | terminates the child and removes the record, its applier and its watch, and nothing else |
| Lifecycle.Manager.StopAll | chromium_src/purecloak/browser/workspace_launcher.cc:325-354 | does so for every record |
| Lifecycle.Manager.TerminateAll | chromium_src/purecloak/browser/workspace_launcher.cc:333-338 | the loop terminates exactly the valid children of all records |
| Lifecycle.Manager.NotifyStatusChanged | chromium_src/purecloak/browser/workspace_launcher.cc:405-425 | sets the status, then lets the observers stop any workspaces |
| Lifecycle.Manager.RunningCount | chromium_src/purecloak/browser/workspace_launcher.cc:384-393 | the counting loop gives the number of records that are starting or running |
| Lifecycle.Watchdog.StartWatching | chromium_src/purecloak/browser/workspace_launcher_watchdog.cc:22-33 | adds one id and runs the timer |
| Lifecycle.Watchdog.StopWatching | chromium_src/purecloak/browser/workspace_launcher_watchdog.cc:35-43 | removes one id and stops the timer when none is left |
| Lifecycle.Watchdog.StopAll | chromium_src/purecloak/browser/workspace_launcher_watchdog.cc:45-51 | watches nothing and stops the timer |
| Lifecycle.Watchdog.CheckProcess | chromium_src/purecloak/browser/workspace_launcher_watchdog.cc:65-104 | one check, with observers that stop workspaces while it runs |
| Lifecycle.Watchdog.OnPoll | chromium_src/purecloak/browser/workspace_launcher_watchdog.cc:53-63 | the loop over the copied watch list checks every copied id once |
| LifecycleRuns.SweepIsCorrect | chromium_src/purecloak/browser/workspace_launcher_watchdog.cc:53-104 | after a sweep, whatever children exit and observers stop between its checks: a surviving record is unchanged, except that one found dead is Crashed and unwatched; nothing else moves |
| LifecycleRuns.FoundDeadExactly | chromium_src/purecloak/browser/workspace_launcher_watchdog.cc:83-89 | a check finds a record dead if and only if its handle is invalid or its child had exited by that check |
| LifecycleRuns.SweepRemovesExactlyTheStopped | chromium_src/purecloak/browser/workspace_launcher_watchdog.cc:53-104 | a sweep removes a record if and only if a notified observer stopped it |
| LifecycleRuns.StopManyEffect | chromium_src/purecloak/browser/workspace_launcher.cc:289-323 | stopping any ids removes exactly their records and watches, and changes no other record |
| LifecycleRuns.AlwaysTidy | chromium_src/purecloak/browser/workspace_launcher.cc:250-354 | in every run, between tasks: appliers and records have the same ids, the watched ids are those Running, the timer runs iff something is watched, and each record owns its child alone |
| LifecycleRuns.RunningCountIsWatched | chromium_src/purecloak/browser/workspace_launcher.cc:384-393 | the records RunningCount counts are the watched ones |
| LifecycleSafety.EveryStartAnsweredOnce | chromium_src/purecloak/browser/workspace_launcher.cc:147-287 | in every run each Start has had its callback run exactly once or is still pending, also after the manager is destroyed |
| LifecycleSafety.StartGoesAheadExactly | chromium_src/purecloak/browser/workspace_launcher.cc:147-177 | a start becomes pending with its port if and only if its workspace has no Starting or Running record, there are fewer than ten records and the port is not 0; otherwise it is answered at once |
| LifecycleSafety.ContinueEffect | chromium_src/purecloak/browser/workspace_launcher.cc:225-287 | a start that goes on leaves a Running, watched record of a new child on its own port, every other record as it was, and its answer; on a failed launch only the answer |
| LifecycleSafety.CrashedCanRestart | chromium_src/purecloak/browser/workspace_launcher.cc:152-158 | in every run a crashed workspace can be started again, and then runs with a new child on the new port |
| LifecycleSafety.StopEffect | chromium_src/purecloak/browser/workspace_launcher.cc:289-323 | a stop terminates the child and removes the record, its applier and its watch, and changes no other record and no pending start |
| LifecycleSafety.StopAllEffect | chromium_src/purecloak/browser/workspace_launcher.cc:325-354 | stopping everything leaves nothing watched and terminates every child a record held |
| LifecycleSafety.Capacity | chromium_src/purecloak/browser/workspace_launcher.cc:160-167 | with at most K pending starts, records plus pending starts stay at most 9 + K: ten if starts are serialised |
| LifecycleSafety.LimitIsPassed | chromium_src/purecloak/browser/workspace_launcher.cc:225-265 | for every K > 0 a run reaches 9 + K records: the bound is exact, and the limit of ten is passed with two pending starts |
| LifecycleSafety.ContinueLosesLiveChild | chromium_src/purecloak/browser/workspace_launcher.cc:250-265 | ContinueStart loses a child if and only if the record it overwrites holds one that still runs |
| LifecycleSafety.NoChildIsLost | chromium_src/purecloak/browser/workspace_launcher.cc:147-354 | in every run with at most one pending start per id, every child has exited, was terminated, or belongs to a record, and only Crashed records are overwritten |
| LifecycleSafety.StartIsSafeExactly | chromium_src/purecloak/browser/workspace_launcher.cc:147-287 | when a start becomes pending, no later run whose starts are patient loses a child, if and only if no other start of the same workspace was pending |
| LifecycleSafety.AlwaysNumbered | chromium_src/purecloak/browser/workspace_launcher.cc:225-354 | in every run only launched children have exited, been terminated or are held by records |
| LifecycleSafety.TwoStartsLoseAChild | chromium_src/purecloak/browser/workspace_launcher.cc:152-158 | such a run: two starts of one workspace before the first is answered lose a running child |
| LifecycleSafety.StopHoldsExactly | chromium_src/purecloak/browser/workspace_launcher.cc:289-323 | after Stop the workspace stays away in every run that does not start it again, if and only if no start of it was pending |
| LifecycleSafety.StopHolds | chromium_src/purecloak/browser/workspace_launcher.cc:289-323 | in every run, after a Stop with no start of its workspace pending and until the next start, the workspace has neither a record nor a pending start |
| LifecycleSafety.PendingStartOutlivesStop | chromium_src/purecloak/browser/workspace_launcher.cc:225-265 | a start that is pending at a Stop brings the workspace back when it goes on |
| LifecycleSafety.StopMissesPendingStart | chromium_src/purecloak/browser/workspace_launcher.cc:289-295 | such a run: a workspace started and stopped before its start goes on runs afterwards |
| ProfileApplier.Batch | chromium_src/purecloak/browser/workspace_profile_applier.cc:44-61 | Page.enable comes first with id 0, and the command at position k carries id k |
| ProfileApplier.GenerateCDPCommands | chromium_src/purecloak/content/profile_cdp_injector.cc:71-97 | a call is generated if and only if the settings ask for it, each kind at most once, in the fixed order of the kinds |
| ProfileApplier.OrderedCallsUnique | chromium_src/purecloak/content/profile_cdp_injector.cc:71-97 | these two facts determine the list of calls |
| ProfileApplier.GenerateCommandBatch | chromium_src/purecloak/browser/workspace_profile_applier.cc:186-196 | a call is in the batch if and only if some workspace wants it; the calls are one group per workspace in their order, each with exactly its wanted calls in the fixed order |
| ProfileApplier.WorkspaceProfileApplier.FillPendingCommands | chromium_src/purecloak/browser/workspace_profile_applier.cc:44-61 | the numbering loop and the prepended command yield the batch |
| ProfileApplier.WorkspaceProfileApplier.Apply | chromium_src/purecloak/browser/workspace_profile_applier.cc:32-71 | starts the first epoch with 30 retries, or runs the callback at once if there is nothing to apply |
| ProfileApplier.WorkspaceProfileApplier.OnPollTick | chromium_src/purecloak/browser/workspace_profile_applier.cc:73-82 | posts one availability check |
| ProfileApplier.WorkspaceProfileApplier.OnCDPCheckResult | chromium_src/purecloak/browser/workspace_profile_applier.cc:84-117 | the first positive reply sends, the last negative one times out, later ones are ignored |
| ProfileApplier.WorkspaceProfileApplier.OnCommandsSent | chromium_src/purecloak/browser/workspace_profile_applier.cc:119-137 | keeps the socket and runs the callback; a destroyed applier gets nothing |
| ProfileApplier.WorkspaceProfileApplier.OnHealthCheck | chromium_src/purecloak/browser/workspace_profile_applier.cc:139-163 | reconnects if and only if a socket is held and it is broken |
| ProfileApplier.WorkspaceProfileApplier.ReconnectCDP | chromium_src/purecloak/browser/workspace_profile_applier.cc:165-184 | closes the socket and opens an epoch with 60 retries and the saved commands |
| ProfileApplier.WorkspaceProfileApplier.Destroy | chromium_src/purecloak/browser/workspace_profile_applier.cc:24-30 | closes a held socket |
| ProfileApplierRuns.OneSocketAtATime | chromium_src/purecloak/browser/workspace_profile_applier.cc:73-137 | in every run, with any stale replies: sends in flight, a held socket and commands not started never exceed one; so no held descriptor is overwritten, and each delivered one is closed once, in order, or still held |
| ProfileApplierRuns.EveryEpochSendsTheBatch | chromium_src/purecloak/browser/workspace_profile_applier.cc:84-117 | only the batch of the applied settings is sent: once in every epoch a reconnect has ended, at most once in the present one, and not while it waits, which it does for at most 30 negative checks, or 60 after a reconnect |
| ProfileApplierRuns.EverySentBatchIsWanted | chromium_src/purecloak/browser/workspace_profile_applier.cc:44-61 | in every run each batch sent is Page.enable with id 0 and then exactly the calls the applied settings ask for, workspace by workspace, with ids 1, 2, ... |
| ProfileApplierRuns.SendsExactly | chromium_src/purecloak/browser/workspace_profile_applier.cc:84-107 | a send starts if and only if a positive reply reaches a living applier whose commands are not started |
| ProfileApplierRuns.CallbackRunsExactly | chromium_src/purecloak/browser/workspace_profile_applier.cc:44-137 | the callback runs exactly when there is nothing to apply, when a send returns to a living applier, and at the 30th negative reply of the first epoch or the 60th of a later one |
| ProfileApplierRuns.SocketLife | chromium_src/purecloak/browser/workspace_profile_applier.cc:119-184 | in every run a returned descriptor is held and watched; a broken one is closed and a new epoch waits with the same commands; an unbroken one is left alone; destruction closes what is held |
| ProfileApplierRuns.OneSendPerEpoch | chromium_src/purecloak/browser/workspace_profile_applier.cc:84-117 | between two points with no reconnect in between at most one send starts |
| ProfileApplierRuns.CallbackRunsOnce | chromium_src/purecloak/browser/workspace_profile_applier.cc:110-137 | before a reconnect the callback runs at most once; a run that reconnects twice has run a consumed callback |
| ProfileApplierRuns.FaultsExactlyAfterReconnect | chromium_src/purecloak/browser/workspace_profile_applier.cc:115-136 | a step is the first to run a consumed callback if and only if it completes an epoch after a reconnect |
| ProfileApplierRuns.EveryDescriptorAccounted | chromium_src/purecloak/browser/workspace_profile_applier.cc:119-137 | the descriptors that sends returned are those closed, the one held and those lost, counted with multiplicity |
| ProfileApplierRuns.DestroyIsSafeExactly | chromium_src/purecloak/browser/workspace_profile_applier.cc:24-30 | no run after the destruction of an applier loses a descriptor, whatever the replies, if and only if no send is under way at the destruction |
| ProfileApplierRuns.LostExactlyAfterDestroy | chromium_src/purecloak/browser/workspace_profile_applier.cc:103-106 | inside any run, descriptors are lost if and only if a send returns one after the applier is gone, and in no other way |
| ProfileApplierRuns.DestroyedInFlight | chromium_src/purecloak/browser/workspace_profile_applier.cc:24-30 | such a run |
| QuoteEscaping.EscapeQuotes | chromium_src/purecloak/content/profile_cdp_injector.cc:118-123 | the loop that inserts in the string it scans ends, with a backslash before every quote and nothing else changed |
| QuoteEscaping.JsonRoundTrip | chromium_src/purecloak/content/profile_cdp_injector.cc:115 | JSON escaping is undone by a JSON string reader (RFC 8259, section 7) |
| QuoteEscaping.QuotedJsonIsLiteral | chromium_src/purecloak/content/profile_cdp_injector.cc:115-123 | whatever a JSON-escaped text denotes, the loop's output denotes as the body of a single-quoted literal; in particular it holds no bare quote |
| QuoteEscaping.EmbeddedTextIsPreserved | chromium_src/purecloak/content/anti_detection/anti_detection_engine.cc:158-176 | for every string, JSON escaping and then the loop give a literal body that denotes the string |
| QuoteEscaping.EscapeForScript | chromium_src/purecloak/content/anti_detection/anti_detection_engine.cc:158-167 | the escaping of vendor, renderer and user agent preserves every string, the empty one included |
| QuoteEscaping.LiteralNoLonger | chromium_src/purecloak/content/anti_detection/anti_detection_engine.cc:608-615 | what the quote loop alone produces never denotes a longer string, and a shorter one if there is a backslash |
| QuoteEscaping.CStringOfQuoted | chromium_src/purecloak/content/anti_detection/anti_detection_engine.cc:616-619 | printing the escaped name with %s is escaping the name up to its first NUL |
| QuoteEscaping.TimezonePreservedExactly | chromium_src/purecloak/content/anti_detection/anti_detection_engine.cc:604-619 | the quote loop alone preserves a time zone name if and only if it has no backslash, line end or NUL |
| ApiPaths.PathRoundTrip | chromium_src/purecloak/browser/api/workspace_api_handler.cc:53-63 | the segments of a path rebuild the path, up to a missing first slash; only the empty path and / have none |
| ApiPaths.SegmentsRoundTrip | chromium_src/purecloak/browser/api/workspace_api_handler.cc:53-63 | slash-free segments are parsed back from their path, except the single empty segment |
| ApiPaths.Subpath | chromium_src/purecloak/browser/api/workspace_api_handler.cc:290-293 | the rebuilding loop yields the exact rest of the path after the fourth segment |
| ApiPaths.ScanPath | chromium_src/purecloak/browser/api/api_unittest.cc:17-36 | the scanning parser of the unit test gives the production parser's segments without the empty ones |
| ApiPaths.EmptyPieces | chromium_src/purecloak/browser/api/workspace_api_handler.cc:53-63 | a text splits into an empty piece if and only if it is empty, has a slash at an end, or two in a row |
| ApiPaths.ParsersAgreeExactly | chromium_src/purecloak/browser/api/api_unittest.cc:13-36 | the two parsers agree if and only if the path, after the one slash it may start with, is empty or has no slash at either end and no two in a row |
| ApiDispatch.EveryEndpointReached | chromium_src/purecloak/browser/api/workspace_api_handler.cc:193-302 | an authorised request for an endpoint of the table reaches its handler, export excepted |
| ApiDispatch.OnlyByItsEndpoint | chromium_src/purecloak/browser/api/workspace_api_handler.cc:193-302 | a handler is reached only by requests for its endpoint, with its id and subpath |
| ApiDispatch.NotFoundExactly | chromium_src/purecloak/browser/api/workspace_api_handler.cc:215-226 | an authorised request finds no route if and only if it names no endpoint |
| ApiDispatch.ExportUnreachable | chromium_src/purecloak/browser/api/workspace_api_handler.cc:248-281 | the export handler is never reached: GET /api/workspaces/export looks up a workspace called export |
| ApiDispatch.UpgradesAtCDPEndpoints | chromium_src/purecloak/browser/api/workspace_api_handler.cc:149-178 | an upgrade is relayed to a workspace and subpath if and only if the request names that CDP endpoint, whatever its headers |
| ApiDispatch.UnauthorizedExactly | chromium_src/purecloak/browser/api/workspace_api_handler.cc:196-211 | a request is refused if and only if a token is set and the request does not carry it as a bearer token |
| ApiDispatch.TreatedAlikeExactly | chromium_src/purecloak/browser/api/workspace_api_handler.cc:149-211 | an upgrade and a plain request reach the same workspace and subpath, or neither does, if and only if the request is authorised or names no CDP endpoint |
| ApiDispatch.UpgradeWithoutToken | chromium_src/purecloak/browser/api/workspace_api_handler.cc:149-178 | for every token and id, a request without the header that is refused over HTTP and relayed as an upgrade |
| ApiResponses.WorkspaceApiHandler.OnHttpRequest | chromium_src/purecloak/browser/api/workspace_api_handler.cc:193-302 | the dispatcher's tests in order: one response at once or one task |
| ApiResponses.WorkspaceApiHandler.OnWorkspaceRequest | chromium_src/purecloak/browser/api/workspace_api_handler.cc:235-298 | the routes below /api/workspaces |
| ApiResponses.WorkspaceApiHandler.ForwardToChild | chromium_src/purecloak/browser/api/workspace_api_handler.cc:724-832 | every path through the forwarding task of a living handler sends exactly one response |
| ApiResponses.WorkspaceApiHandler.RunUpdate | chromium_src/purecloak/browser/api/workspace_api_handler.cc:495-524 | both paths of an update post exactly one response |
| ApiResponses.WorkspaceApiHandler.RunLaunch | chromium_src/purecloak/browser/api/workspace_api_handler.cc:560-590 | a launch posts one response or leaves one pending start |
| ApiResponses.WorkspaceApiHandler.RunTask | chromium_src/purecloak/browser/api/workspace_api_handler.cc:392-982 | what each posted task does on its thread |
| ApiResponses.OneResponsePerRequest | chromium_src/purecloak/browser/api/workspace_api_handler.cc:392-1087 | in every interleaving of API and UI tasks, a living handler has answered each request exactly once or has exactly one task pending for it; never more than one response, even after the handler is gone, and at most one retry |
| ApiResponses.AllAnswered | chromium_src/purecloak/browser/api/workspace_api_handler.cc:392-1087 | when no task is left, a living handler has answered every request exactly once |
| ApiResponses.FirstTaskExactly | chromium_src/purecloak/browser/api/workspace_api_handler.cc:193-302 | which requests are answered at once, and which task each of the others waits for first |
| ApiResponses.AnsweredOnlyWhenSettled | chromium_src/purecloak/browser/api/workspace_api_handler.cc:552-982 | in every run a CDP request is answered only after its forwarding or a refused retry, a launch only after its start has gone on or been answered, or its workspace was not found |
| ApiResponses.RunMakesProgress | chromium_src/purecloak/browser/api/workspace_api_handler.cc:392-982 | running a task leaves strictly fewer steps for its request and no more for any other |
| ApiResponses.FourTasksPerRequest | chromium_src/purecloak/browser/api/workspace_api_handler.cc:392-1087 | in every run at most four tasks run for a request, its retry included |
| StoragePartition.NameRoundTrip | chromium_src/purecloak/content/storage_partition_controller.cc:52-59 | splitting a name at its first separator gives back the workspace and the profile, for workspace ids without one |
| StoragePartition.NamesAreInjective | chromium_src/purecloak/content/storage_partition_controller.cc:52-59 | names are injective in workspace and profile, for workspace ids without the separator |
| StoragePartition.NamesCoincideExactly | chromium_src/purecloak/content/storage_partition_controller.cc:52-59 | some partitions of two workspaces share a name if and only if one id, followed by the separator, begins the other |
| StoragePartition.KeptApartExactly | chromium_src/purecloak/content/storage_partition_controller.cc:52-59 | a workspace id shares no name with another, separator-free one if and only if it has no separator or starts with one |
| StoragePartition.StoragePartitionController.SetWorkspace | chromium_src/purecloak/content/storage_partition_controller.cc:78-95 | replaces the context's workspace, or removes it if empty |
| StoragePartition.StoragePartitionController.SetProfile | chromium_src/purecloak/content/storage_partition_controller.cc:123-136 | sets or removes one tab's profile |
| StoragePartition.StoragePartitionController.SetActiveProfile | chromium_src/purecloak/content/storage_partition_controller.cc:151-160 | sets the active profile |
| StoragePartition.StoragePartitionController.ConsumeActiveProfile | chromium_src/purecloak/content/storage_partition_controller.cc:163-177 | returns the active profile and leaves none |
| StoragePartition.StoragePartitionController.GetStoragePartitionConfigForSite | chromium_src/purecloak/content/storage_partition_controller.cc:181-205 | the resolver without a tab |
| StoragePartition.StoragePartitionController.GetStoragePartitionConfig | chromium_src/purecloak/content/storage_partition_controller.cc:208-241 | the resolver with a tab, whose own profile comes first and leaves the active one |
| StoragePartition.EachActiveProfileUsedOnce | chromium_src/purecloak/content/storage_partition_controller.cc:151-241 | over any run, changing the value given to one SetActiveProfile changes at most one later output |
| StoragePartition.SamePartitionExactly | chromium_src/purecloak/content/storage_partition_controller.cc:195-237 | two resolutions share a partition if and only if they are for the same workspace and the same profile |
| StoragePartition.ResolveExactly | chromium_src/purecloak/content/storage_partition_controller.cc:181-241 | what each resolution gives: in fingerprint workspace w a tab with profile p gets w#p and leaves the active profile alone; otherwise the active profile is used up; otherwise w itself |
| StoragePartition.TabsKeptApart | chromium_src/purecloak/content/storage_partition_controller.cc:195-241 | over any runs, tabs last set to different non-empty profiles never resolve to the same partition of separator-free workspaces |
| StoragePartition.SharedAfterFirstUse | chromium_src/purecloak/content/storage_partition_controller.cc:229-232 | a tab without its own profile gets the active profile's partition once, and the workspace's shared one afterwards |

## Left out

- CDPProxyHandler: the relay of WebSocket frames to a child; nothing in the repository gives it its server.
- HTTP discovery and the WebSocket handshake: their results are parameters of `SendCommands`; bytes the handshake reads
  past its header are dropped by the code and are not part of the model's stream.
- JSON text: parsing and printing are parameters or values (`Workspace.Value`); RFC 8259 string escaping is modelled only
  in `QuoteEscaping`.
- Timestamps.TimeFromString: of the texts `FromUTCString` accepts only the form the program writes, with a T or a space, is
  read; any other text gives the null time. Times reach from 1601 to the end of 9999, where years have four digits.
- WorkspaceStore.WorkspaceStore.SaveToDisk: the order of the saved list is left open; the code lists in key order.
- WorkspaceStore.WorkspaceStore.RunNextTask: a write happens whole or not at all; a torn file is not modelled.
- Observers: only status-changed observers call back into the manager, by `Stop`; the launched and store observers are
  assumed not to. `OnWorkspacesChanged`, which carries no data, is not recorded.
- Lifecycle.Manager.Start: the search for a free port and the data directory are parameters; the recursive deletion that
  Stop posts, and its race with a new start of the same workspace, are not modelled.
- Lifecycle.Watchdog.OnPoll: the order of the checks is any order of the watched ids; the code uses the map's order.
- ProfileApplier.WorkspaceProfileApplier.Apply: called once per applier, as `workspace_launcher.cc:276-283` does; a second
  call, which would append to the pending commands, is not modelled.
- CanvasNoise.ApplyToPixmap: coordinates are unbounded integers; images so large that `x * 1009 + y * 3049` exceeds 31
  bits are outside it. The index passed to the noise wraps at 32 bits, as in the code.
- AudioNoise.ApplyToChannel: samples and noise are reals; the rounding of floats is not modelled.
- CanvasNoise.ApplyToFlatBuffer: patches 0008 and 0009 give every caller the fixed seed 0, so no dependence of the noise on
  the workspace is stated.
- QuoteEscaping.EscapeQuotes: strings are sequences of UTF-16 code units; the code scans UTF-8 bytes, in which a quote or a
  backslash never occurs inside a longer character. Replacement of invalid UTF-8 is not modelled.
- ApiResponses.WorkspaceApiHandler.RunTask: what a response contains is not modelled, nor a connection closed before its
  response or a handler without a server; the UI tasks with a single path, which post one response, are one kind of task.
- ApplyBodyToWorkspace, the generated JavaScript, command-line building, header stripping, the font list and patches 0012
  to 0020: one-branch facts that would only add easy members.
