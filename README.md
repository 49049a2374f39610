# Magnus core, modelled in Dafny

Magnus is a desktop voice assistant. A Tauri back end in Rust captures microphone audio, talks to a hosted assistant that can call local tools, synthesizes the replies to speech and plays them back. A React front end shows the chat. This project models the parts of that core that decide what data flows where:

- **Speech playback** (`audio_output.rs`, `tts_utils.rs`, the `create_speech` loop of `assistant.rs`):
  - every Ogg/Opus packet read is decoded into a zeroed 1920-sample buffer and offered to a crossbeam channel as two 960-sample frames;
  - read errors are skipped, and a full channel drops a frame;
  - a disconnected channel panics;
  - the output callback copies one frame into the device buffer, padding with the format's equilibrium;
  - the polling loop ends on a stream error, or once synthesis is over and the queue is empty;
  - `speak` raises the "synthesizing" flag before the decode task starts and lowers it only after the task has been awaited.
- **Tool calls** (`assistant.rs`):
  - the run id and tool names are taken from rendered JSON with their quotes trimmed;
  - each polled run status is mapped to an action;
  - one output record is assembled per object tool call, in order, carrying the call's id;
  - each panic path of the loop is modelled: a missing `function` key, non-string arguments, an unknown tool.
- **Microphone capture** (`audio_input.rs`, `audio_stream.rs`):
  - each device buffer is reduced to its first channel;
  - float samples are converted to 16-bit PCM with clamping and truncation toward zero;
  - the recorder appends samples under a `try_lock` and finally takes the clip out.
- **Permission and settings stores** (`permissions.rs`, `settings.rs`):
  - JSON files on disk;
  - all-false or default-device contents are regenerated when a file is missing or holds the empty object;
  - updates skip the empty object;
  - the permission check lists the denied permissions, in order, in a message from which they can be read back.
- **Front end and back-end client** (`codeBubble.tsx`, `log.ts`, `db.rs`):
  - the code and language tag a code bubble shows;
  - the log-level conversions on both sides of the Tauri boundary;
  - the backend domain chosen from `IS_PROD`;
  - the request bodies;
  - when a failed user creation is logged.

Code that changes state step by step is imperative Dafny:
- JSON files and crossbeam channels are classes whose methods update their fields.
- The shared clip is a class.
- The device buffer is an `array` filled in place.
- Loops are `while`/`for` loops proved against specification functions.

Code that computes values is written as functions and lemmas. Rust panics are explicit outcomes that carry the panic message (`Outcome.Panicked`). Foreign code is passed in as parameters:
- the Opus decoder's output per packet;
- the outcome of `try_lock`;
- JSON rendering and parsing;
- the tools themselves.

A sample of -2.0 converts to -32767 (`-i16::MAX`), not to `i16::MIN` (-32768): the conversion clamps symmetrically; see `AudioInput.SampleToI16`.

## Model

| member | source | states |
|---|---|---|
| Json.Index | src-tauri/src/assistant.rs:101-104 | indexing a JSON value gives the field of an object that holds the key and `null` in every other case |
| Json.Get | src-tauri/src/permissions.rs:95 | `get` finds a value exactly when the value is an object holding the key, and then it is that field |
| Json.AsBool | src-tauri/src/permissions.rs:95 | `as_bool` succeeds exactly on booleans and returns the boolean |
| Json.JsonFile.WriteUnlessEmpty | src-tauri/src/permissions.rs:55-60 | the empty object is never written; any other value replaces the file contents |
| Json.JsonFile.ReadOrRegenerate | src-tauri/src/permissions.rs:62-88 | a missing file, or one holding the empty object, is rewritten with the defaults and re-read; the value returned is what the file holds afterwards |
| Json.Regenerated | src-tauri/src/permissions.rs:70-82 | a reader returns the defaults for a missing file or one holding the empty object, and the stored value otherwise |
| Json.RegeneratedNotEmpty | src-tauri/src/permissions.rs:70-73 | a reader never returns the empty object |
| Json.RegeneratedStable | src-tauri/src/permissions.rs:70-75 | reading again after a regeneration changes nothing |
| Strings.Split | src/components/codeBubble/codeBubble.tsx:14 | `split` always yields at least one piece |
| Strings.SplitPiecesFree | src/components/codeBubble/codeBubble.tsx:14 | no piece of a split contains the separator |
| Strings.Join | src-tauri/src/permissions.rs:113 | a join of one or more parts starts with the first part |
| Strings.JoinSplit | src/components/codeBubble/codeBubble.tsx:14 | joining the pieces of a split with the separator gives the string back |
| Strings.SplitJoin | src/components/codeBubble/codeBubble.tsx:14 | splitting a join of separator-free pieces gives the pieces back |
| Strings.JoinLead | src-tauri/src/permissions.rs:113 | joining with ", " is joining with "," after prefixing every piece but the first with a space |
| Strings.TrimStart | src-tauri/src/assistant.rs:115-118 | the result is a suffix of the input that does not start with a stripped character |
| Strings.TrimStartStrips | src-tauri/src/assistant.rs:115-118 | everything removed at the front is a stripped character |
| Strings.TrimEnd | src-tauri/src/assistant.rs:115-118 | the result is a prefix of the input that does not end with a stripped character |
| Strings.TrimEndStrips | src-tauri/src/assistant.rs:115-118 | everything removed at the back is a stripped character |
| Strings.Trim | src-tauri/src/assistant.rs:115-118 | the result neither starts nor ends with a stripped character |
| Strings.TrimSlice | src-tauri/src/assistant.rs:115-118 | the trimmed string is a contiguous slice of the input |
| Strings.TrimIdempotent | src-tauri/src/assistant.rs:115-118 | trimming twice is trimming once |
| Slices.Chunks | src-tauri/src/audio_input.rs:37 | no chunk is empty |
| Slices.FlattenChunks | src-tauri/src/audio_input.rs:37 | the chunks concatenate back to the input |
| Slices.ChunkCount | src-tauri/src/audio_input.rs:37 | the number of chunks is the input length divided by the size, rounded up |
| Slices.ChunkAt | src-tauri/src/audio_input.rs:37 | chunk `i` is the input slice starting at `i * size`, cut at the input's end |
| Slices.ChunkFrom | src-tauri/src/audio_input.rs:37 | chunk `i` starts at the `i`-th multiple of the size, counted as a running sum, and is cut at the input's end |
| Slices.OffsetIsProduct | src-tauri/src/audio_input.rs:37 | the running sum of `i` sizes is `i * size` |
| Slices.Heads | src-tauri/src/audio_input.rs:37-39 | one sample per frame |
| Slices.HeadsAt | src-tauri/src/audio_input.rs:37-39 | sample `i` is the first sample of frame `i` |
| Slices.FirstChannel | src-tauri/src/audio_input.rs:37-38 | one sample per frame, never more samples than the input holds; a non-empty input yields its first sample first |
| Slices.FirstChannelAt | src-tauri/src/audio_input.rs:37-39 | the first-channel samples are exactly the input samples at multiples of the channel count |
| Slices.FirstChannelMono | src-tauri/src/audio_input.rs:37-39 | with one channel every sample is kept |
| Slices.ChunksAppend | src-tauri/src/audio_stream.rs:82-84 | chunking whole frames followed by more data chunks each part separately |
| Slices.HeadsAppend | src-tauri/src/audio_stream.rs:82-84 | taking frame heads distributes over concatenation |
| Slices.FirstChannelAppend | src-tauri/src/audio_stream.rs:82-84 | the first channel of whole frames followed by more data is the concatenation of the two parts' first channels |
| Channels.Channel.constructor | src-tauri/src/audio_output.rs:132 | a new channel is empty and has a receiver |
| Channels.Channel.TrySend | src-tauri/src/assistant.rs:236-242 | `try_send` fails as disconnected without a receiver and as full at capacity; otherwise the message is appended |
| Channels.Channel.Send | src-tauri/src/audio_input.rs:40-43 | `send` fails only without a receiver, and then the queue is unchanged; otherwise the message is appended |
| Channels.Channel.TryRecv | src-tauri/src/audio_output.rs:34 | `try_recv` removes and returns the oldest message, or returns nothing from an empty queue |
| Playback.Filled | src-tauri/src/audio_output.rs:37-41 | a filled buffer has the buffer's length |
| Playback.PopFillIsFilled | src-tauri/src/audio_output.rs:37-41 | popping position by position with `unwrap_or(silence)` gives the frame's samples while they last, then silence |
| Playback.Convert | src-tauri/src/audio_output.rs:35 | `map(from_sample)` converts each sample in place and keeps the length |
| Playback.FillFromChannel | src-tauri/src/audio_output.rs:34-42 | the pairwise walk over the device buffer writes exactly the filled frame and removes it from the queue; an empty queue leaves buffer and queue unchanged |
| AudioOutput.WriteAudio | src-tauri/src/audio_output.rs:30-43 | the device buffer holds the converted oldest frame padded with the equilibrium, and the frame is consumed; without a frame nothing changes |
| AudioOutput.FilledAt | src-tauri/src/audio_output.rs:37-41 | each buffer position holds the frame's sample while the frame lasts and the equilibrium after it |
| AudioOutput.ExitDecision | src-tauri/src/audio_output.rs:74-82 | a pending stream error fails the loop; otherwise it finishes exactly when synthesis is over and the queue is empty |
| AudioOutput.RunStream | src-tauri/src/audio_output.rs:74-82 | the loop stops at the first turn that decides, with that decision, and every earlier turn continued |
| AudioOutput.SpeakPrefixes | src-tauri/src/audio_output.rs:140-154 | the flag value after each step of `speak` |
| AudioOutput.SpeakFlagCoversDecode | src-tauri/src/audio_output.rs:140-153 | while the decode task may be running, the synthesizing flag is up |
| AudioOutput.OutputDrainsOnlyAfterDecode | src-tauri/src/audio_output.rs:140-154 | the output thread can finish normally only after the decode task has been awaited |
| AudioOutput.SpeakOrder | src-tauri/src/audio_output.rs:152-154 | the flag is lowered right after the decode task is awaited, and the output thread is joined after that |
| Synthesis.DecodedBuffer | src-tauri/src/assistant.rs:231-232 | every decoded buffer has 1920 samples, whatever the decoder wrote |
| Synthesis.FailedDecodeIsSilence | src-tauri/src/assistant.rs:231-232 | a failed decode leaves the zeroed buffer, which is sent as silence |
| Synthesis.HalvesAreChunks | src-tauri/src/assistant.rs:235 | `chunks(960)` of a 1920-sample buffer is exactly its two halves, in order |
| Synthesis.SpeechFramesAppend | src-tauri/src/assistant.rs:228-248 | the frames of a stream are those of its parts, so a read error does not stop later packets |
| Synthesis.SpeechFramesStep | src-tauri/src/assistant.rs:228-248 | one more packet read adds its own frames after those of the packets before it |
| Synthesis.SpeechFrames | src-tauri/src/assistant.rs:228-248 | the frames offered for a stream, in order: exactly two per packet read, none per read error |
| Synthesis.SpeechFramesShape | src-tauri/src/assistant.rs:234-244 | every frame offered has 960 samples |
| Synthesis.SpeechFramesRejoin | src-tauri/src/assistant.rs:235 | the frames concatenate back to the decoded buffers in packet order |
| Synthesis.Offer | src-tauri/src/assistant.rs:236-242 | the messages already queued stay in front, and each offered frame adds at most one message |
| Synthesis.OfferAppend | src-tauri/src/assistant.rs:236-242 | offering two batches of frames one after the other is offering their concatenation |
| Synthesis.OfferUnbounded | src-tauri/src/audio_output.rs:132 | on the unbounded playback channel every frame arrives, in order |
| Synthesis.OfferBounded | src-tauri/src/assistant.rs:236-242 | on a bounded channel queued frames stay and the queue never exceeds capacity |
| Synthesis.OfferFrame | src-tauri/src/tts_utils.rs:45-52 | one `try_send`: reports a missing receiver, leaving the queue as it was; otherwise the frame is offered after those already offered |
| TtsUtils.Speak | src-tauri/src/tts_utils.rs:38-65 | with a receiver, the queue receives the offered frames of every packet read and the loop returns; without one, the queue is unchanged and the loop panics exactly when some packet is read |
| TtsUtils.WriteAudio | src-tauri/src/tts_utils.rs:83-94 | the device buffer holds the oldest frame padded with 0.0 and the frame is consumed; without a frame nothing changes |
| Assistant.TrimQuotes | src-tauri/src/assistant.rs:115-118 | `trim_matches('"')` leaves no quote at either end |
| Assistant.RunId | src-tauri/src/assistant.rs:84 | the run id has no quote at either end; a rendering without quotes is returned as it is |
| Assistant.RunIdOfQuotedId | src-tauri/src/assistant.rs:84 | an id wrapped in quotes (the literal `"` + id + `"`) comes back unchanged when it does not itself start or end with a quote |
| Assistant.NextAction | src-tauri/src/assistant.rs:101-104 | finish exactly on `completed`; submit outputs exactly on `requires_action` with a `submit_tool_outputs` action; sleep otherwise |
| Assistant.OutputRecord | src-tauri/src/assistant.rs:139-142 | the record carries the call's id and the output string |
| Assistant.CallOutput | src-tauri/src/assistant.rs:111-143 | non-objects are skipped; a missing `function` key or non-string arguments panic; unparsable arguments give the fixed output; an unknown tool panics; records carry the call id |
| Assistant.IdsPairedCons | src-tauri/src/assistant.rs:139-142 | a record for one more call keeps records and calls paired by id |
| Assistant.ToolOutputs | src-tauri/src/assistant.rs:111-143 | without a panic there are at most as many records as tool calls |
| Assistant.ToolOutputsPairIds | src-tauri/src/assistant.rs:111-143 | without a panic there is one record per object call, in order, each with that call's id |
| Assistant.ToolOutputsPanic | src-tauri/src/assistant.rs:111-143 | the assembly panics exactly when some call panics |
| Assistant.AssembleToolOutputs | src-tauri/src/assistant.rs:106-143 | when `tool_calls` is an array, the loop's result is the tool outputs of those calls; otherwise nothing is submitted |
| Assistant.OpusChannelsFor | src-tauri/src/assistant.rs:197-201 | 1 channel is mono, 2 are stereo, and every other count panics |
| Assistant.OfferChunks | src-tauri/src/assistant.rs:235-243 | the halves are offered in order; a missing receiver is reported at the first one and leaves the queue unchanged |
| Assistant.CreateSpeech | src-tauri/src/assistant.rs:196-251 | an unsupported channel count panics before touching the queue; with a receiver, the queue receives the halves of every packet read; without one, the queue is unchanged and the loop panics exactly when a packet is read |
| AudioInput.TruncateTowardZero | src-tauri/src/audio_input.rs:91 | the cast rounds toward zero: within one of the value, and never farther from zero |
| AudioInput.SampleToI16 | src-tauri/src/audio_input.rs:91 | the result stays within plus or minus 32767; inputs at or beyond ±1.0 saturate; in between it is within one of `v * 32767`; the sign is kept |
| AudioInput.SampleToI16Monotone | src-tauri/src/audio_input.rs:91 | a louder sample never converts to a smaller one |
| AudioInput.TruncateMonotone | src-tauri/src/audio_input.rs:91 | truncation toward zero is monotone |
| AudioInput.ConvertToI16 | src-tauri/src/audio_input.rs:86-95 | same length, each sample converted at its own position |
| AudioInput.WriteData | src-tauri/src/audio_input.rs:32-44 | exactly one message, the converted first channel, is sent if a receiver exists; otherwise the queue is unchanged and nothing is reported |
| AudioStream.Resample | src-tauri/src/audio_stream.rs:21-44 | at the clip's own rate the clip is returned unchanged; at any other rate the result is an empty clip at the new rate |
| AudioStream.ResampleIdempotent | src-tauri/src/audio_stream.rs:21-25 | resampling to a rate already reached changes nothing |
| AudioStream.ResampleKeepsSamples | src-tauri/src/audio_stream.rs:21-44 | a non-empty clip keeps its samples exactly when the rate is unchanged |
| AudioStream.Captured | src-tauri/src/audio_stream.rs:80-84 | nothing is captured when every callback finds the lock busy |
| AudioStream.CapturedWholeFrames | src-tauri/src/audio_stream.rs:82-84 | when every callback gets the lock and holds whole frames, recording per callback equals taking the first channel of everything at once |
| AudioStream.CapturedSkipsBusy | src-tauri/src/audio_stream.rs:80-81 | a callback that misses the lock contributes nothing |
| AudioStream.CapturedAppend | src-tauri/src/audio_stream.rs:77-87 | the recording of two runs of callbacks is the concatenation of their recordings |
| AudioStream.ClipHandle.Start | src-tauri/src/audio_stream.rs:62 | recording starts from an empty clip at the device rate |
| AudioStream.ClipHandle.WriteData | src-tauri/src/audio_stream.rs:77-87 | with the lock and a clip present, the first channel is appended after the existing samples; otherwise nothing changes |
| AudioStream.ClipHandle.Take | src-tauri/src/audio_stream.rs:122 | the clip is moved out, leaving none; a missing clip panics |
| AudioStream.Record | src-tauri/src/audio_stream.rs:46-126 | the returned samples are the first channels of exactly the callbacks that got the lock, in order |
| Permissions.AsStr | src-tauri/src/permissions.rs:17-25 | the name of a permission parses back to that permission |
| Permissions.NamesRoundTrip | src-tauri/src/permissions.rs:17-25 | a name parses back to a permission exactly when it is that permission's name |
| Permissions.AsStrInjective | src-tauri/src/permissions.rs:17-25 | distinct permissions have distinct names |
| Permissions.AllPermissionsComplete | src-tauri/src/permissions.rs:7-14 | `iter()` lists every permission exactly once |
| Permissions.PermissionNamesAreNames | src-tauri/src/permissions.rs:43-45 | the keys written are exactly the permission names |
| Permissions.DefaultPermissionsMap | src-tauri/src/permissions.rs:42-45 | the loop builds a map whose keys are exactly the five names, all `false` |
| Permissions.CreatePermissions | src-tauri/src/permissions.rs:41-53 | the file then holds every permission, denied |
| Permissions.UpdatePermissions | src-tauri/src/permissions.rs:55-60 | the empty object is ignored; anything else replaces the file |
| Permissions.GetPermissions | src-tauri/src/permissions.rs:62-88 | a missing file, or one holding the empty object, is regenerated with the defaults and the settled value is returned |
| Permissions.Lookup | src-tauri/src/permissions.rs:95 | a lookup succeeds exactly on a boolean stored under the permission's name, and yields that boolean |
| Permissions.Denied | src-tauri/src/permissions.rs:94-104 | without a panic the denied list is no longer than the required list |
| Permissions.DeniedPanics | src-tauri/src/permissions.rs:94-95 | the check panics exactly when some required permission has no boolean entry |
| Permissions.NothingDenied | src-tauri/src/permissions.rs:94-108 | nothing is denied exactly when every required permission is stored as `true` |
| Permissions.DeniedCounts | src-tauri/src/permissions.rs:94-104 | each permission stored as `false` appears as often as it is required; no other permission appears |
| Permissions.DeniedAppend | src-tauri/src/permissions.rs:94-104 | the denied list of a concatenation is the concatenation of the denied lists, in order |
| Permissions.DefaultsDenyAll | src-tauri/src/permissions.rs:43-45 | on the regenerated defaults every required permission is denied |
| Permissions.DeniedStep | src-tauri/src/permissions.rs:94-104 | a permission in front adds itself when stored as `false`, nothing when stored as `true` |
| Permissions.DeniedSnoc | src-tauri/src/permissions.rs:94-104 | checking one more permission puts it at the end of the denied list when it is stored as `false` |
| Permissions.CollectDenied | src-tauri/src/permissions.rs:94-104 | the loop computes the denied list, or the panic |
| Permissions.Names | src-tauri/src/permissions.rs:110 | the names of the denied permissions, in order |
| Permissions.DenialMessage | src-tauri/src/permissions.rs:106-114 | there is no message exactly when nothing is denied |
| Permissions.CheckResult | src-tauri/src/permissions.rs:90-115 | the check panics exactly when a lookup panics |
| Permissions.Check | src-tauri/src/permissions.rs:90-115 | the file is settled as `get_permissions` would settle it, and the result is the check on that value |
| Permissions.NameShape | src-tauri/src/permissions.rs:17-25 | names contain no comma and do not start with a space |
| Permissions.SplitDenialBody | src-tauri/src/permissions.rs:110-113 | splitting the message body at commas gives the names, each after the first led by one space |
| Permissions.UnleadNames | src-tauri/src/permissions.rs:110-113 | dropping that space gives each name back |
| Permissions.DenialMessageRoundTrip | src-tauri/src/permissions.rs:110-113 | the message starts with the fixed instruction and the denied names can be read back from it in order |
| Settings.DefaultSettings | src-tauri/src/settings.rs:131-134 | exactly the two selection keys, holding the default input and output device names |
| Settings.CreateSettings | src-tauri/src/settings.rs:130-142 | the file then holds the default devices |
| Settings.UpdateSettings | src-tauri/src/settings.rs:144-149 | the empty object is ignored; anything else replaces the file |
| Settings.GetSettings | src-tauri/src/settings.rs:151-177 | a missing file, or one holding the empty object, is regenerated with the default devices and the settled value is returned |
| Settings.RegeneratedSettings | src-tauri/src/settings.rs:158-162 | regenerated settings name the default devices under exactly the two keys |
| Settings.CreatePermissions | src-tauri/src/settings.rs:44-60 | behaves as the permission store's `create_permissions` |
| Settings.UpdatePermissions | src-tauri/src/settings.rs:62-67 | behaves as the permission store's `update_permissions` |
| Settings.GetPermissions | src-tauri/src/settings.rs:69-94 | behaves as the permission store's `get_permissions` |
| Settings.CheckPermissions | src-tauri/src/settings.rs:96-121 | behaves as the permission store's `check` |
| CodeBubble.JsTrim | src/components/codeBubble/codeBubble.tsx:14 | the trimmed chunk neither starts nor ends with JavaScript white space |
| CodeBubble.Inner | src/components/codeBubble/codeBubble.tsx:14 | `slice(1, -1)` drops the first and last lines, or leaves nothing from at most two lines |
| CodeBubble.Code | src/components/codeBubble/codeBubble.tsx:14 | a trimmed chunk of at most two lines (the fences only) shows no code |
| CodeBubble.CodeLines | src/components/codeBubble/codeBubble.tsx:14 | the code shown is the interior lines, verbatim and in order |
| CodeBubble.CodeFramed | src/components/codeBubble/codeBubble.tsx:14 | the trimmed chunk is the first line, a newline, the code, a newline and the last line |
| CodeBubble.TerminatorFrom | src/components/codeBubble/codeBubble.tsx:17 | the first line terminator at or after a position, or none |
| CodeBubble.FenceEnd | src/components/codeBubble/codeBubble.tsx:17 | a match ends at the first line terminator after the backticks |
| CodeBubble.FindFence | src/components/codeBubble/codeBubble.tsx:17 | a found match really matches `/```.+\n/` |
| CodeBubble.FindFenceLeftmost | src/components/codeBubble/codeBubble.tsx:17 | no match starts before the one found, and one is found whenever any exists |
| CodeBubble.MatchLanguage | src/components/codeBubble/codeBubble.tsx:18 | the tag taken from a match is one line without white space at either end |
| CodeBubble.TrimmedLine | src/components/codeBubble/codeBubble.tsx:18 | trimming a line together with its newline leaves no line terminator |
| CodeBubble.FenceTextIsOneLine | src/components/codeBubble/codeBubble.tsx:17-18 | the trimmed text captured by a match holds no line terminator |
| CodeBubble.Language | src/components/codeBubble/codeBubble.tsx:17-18 | no match of the fence pattern gives the empty tag; any tag is one line without white space at either end |
| CodeBubble.TrimLineBreak | src/components/codeBubble/codeBubble.tsx:18 | a tag with no edge white space comes back from trimming it with its newline |
| CodeBubble.LanguageOfOpeningFence | src/components/codeBubble/codeBubble.tsx:17-18 | a chunk opening with a fence line that names a language shows that language |
| LogUtils.ConvertLogLevel | src/logUtils/log.ts:17-28 | 0, 1 and 2 map to "Info", "Warning" and "Error", and every other number maps to "Unknown" |
| LogUtils.MembersAreKnown | src/logUtils/log.ts:3-28 | no member of the enum converts to "Unknown" |
| LogUtils.ConvertLogLevelInjective | src/logUtils/log.ts:17-28 | distinct members convert to distinct names |
| LogUtils.ToDb | src/logUtils/log.ts:3-7 | each front-end level has the same number as its back-end counterpart |
| LogUtils.NameDeserialises | src/logUtils/log.ts:16-28 | the name sent for a member deserialises to the same level on the Rust side |
| LogUtils.UnknownRefused | src/logUtils/log.ts:25-26 | "Unknown" deserialises to no level |
| LogUtils.MakeLog | src/logUtils/log.ts:30-37 | the record keeps the user id, message and source, and its level deserialises to the given level |
| Db.Domain | src-tauri/src/db.rs:10-24 | production URL exactly when `IS_PROD` is "true", localhost for any other value, and "" when the variable is unavailable |
| Db.UserPayload | src-tauri/src/db.rs:43-47 | the body has exactly the keys `username` and `email`, holding the user's values |
| Db.UserPayloadIgnoresId | src-tauri/src/db.rs:43-47 | the user id has no influence on the body |
| Db.UserPayloadRoundTrip | src-tauri/src/db.rs:43-47 | the name and e-mail can be read back from the body, and no id can |
| Db.Discriminant | src-tauri/src/db.rs:79-83 | the declared discriminants lie in 0..2, 0 only for `Info` and 2 only for `Error` |
| Db.ConvertLogLevel | src-tauri/src/db.rs:94-100 | the integer is the variant's declared discriminant |
| Db.LevelOfNumber | src-tauri/src/db.rs:79-83 | exactly 0, 1 and 2 name a level, and a level named converts back to the number |
| Db.ConvertLogLevelRoundTrip | src-tauri/src/db.rs:94-100 | the stored integer identifies the level |
| Db.ParseVariantName | src-tauri/src/db.rs:78-83 | exactly the three variant names deserialise, each to a variant of that name |
| Db.VariantNameRoundTrip | src-tauri/src/db.rs:78-83 | every variant deserialises from its own name |
| Db.OptionalString | src-tauri/src/db.rs:109 | `None` is written as `null`, `Some(s)` as the string |
| Db.LogPayload | src-tauri/src/db.rs:105-110 | exactly four keys; `logLevel` is the integer from `convert_log_level` |
| Db.LogPayloadRoundTrip | src-tauri/src/db.rs:105-110 | the log can be recovered from its body |
| Db.AddUserFailed | src-tauri/src/db.rs:59 | a failure is reported exactly for a status other than 200 and 409 |
| Db.Decimal | src-tauri/src/db.rs:63-67 | the status is formatted as a non-empty string of decimal digits |
| Db.DecimalRoundTrip | src-tauri/src/db.rs:63-67 | the digits denote the status |
| Db.FailureLog | src-tauri/src/db.rs:60-69 | the failure log has the authenticated user, level Info and source "assistant.rs", and its message starts with the fixed text |
| Db.FailureLogStatus | src-tauri/src/db.rs:63-67 | the status can be read back from the message, right after the fixed text and before the comma |
| Db.AddUser | src-tauri/src/db.rs:40-74 | a failed send returns the error and logs nothing; otherwise `Ok` is returned, with one failure log exactly when the status is neither 200 nor 409 |

## Left out

- HTTP and the network:
  - every request to the assistant, speech and backend services;
  - thread and message creation, `submit_tool_outputs`, `get_assistant_last_response`;
  - the polling sleep.

  Their responses are parameters. `run_and_wait` is covered one polled run at a time (`NextAction`, `AssembleToolOutputs`).
- Opus decoding, the Ogg packet reader and `Decoder::new` failures: foreign libraries. The decoder's output per packet is part of the input.
- Audio devices:
  - cpal host and device selection;
  - building and playing streams;
  - the sample-format dispatch and its `panic!`/`todo!()`;
  - the device-name `unwrap`s;
  - the idle `loop {}` / sleep loops;
  - the Ctrl-C wait in `record`.
- Concurrency:
  - the output queue is not drained while a producer loop runs;
  - `try_lock`'s outcome is a parameter;
  - the order of `speak` is a fixed step sequence, not an interleaving of threads.
- Slices.Chunks: a chunk size of zero, for which `chunks(0)` panics, is excluded by `requires size > 0`; the same holds for `requires channels > 0` on `Slices.FirstChannel`, `AudioInput.WriteData`, `AudioStream.Captured`, `AudioStream.ClipHandle.WriteData`, `AudioStream.Record` and `AudioStream.CapturedAppend`. The device's channel count is never zero and `create_speech` always chunks by 960, so the panic is not modelled.
- Channels.Channel.Send: the wait for room on a full bounded channel is not modelled; the message is delivered.
- Floating point: samples are reals. `f32` rounding and NaN are not modelled, and the infinities in `log.ts` are not either.
- `println!` logging throughout.
- JSON files:
  - read and parse failures (`expect`);
  - I/O errors other than a missing file (`todo!()`);
  - directory creation;
  - pretty printing.
- JSON rendering (`Value::to_string`), argument parsing and the tools' `execute`: these are hooks in `ToolHooks`.
- AudioStream.Resample: the commented-out interpolation is not modelled; the body returns an empty clip.
- Db.Response: `{:?}` of the response body is a parameter string.
- Db.Domain: the `lazy_static` caching of the value is not modelled.
- Permissions.GetPermissions: the recursion after regeneration is modelled. A regenerated file always holds non-empty defaults, so the recursion ends after one round.
- The rest of the repository: the UI components other than the code bubble, transcription with Vosk, the model download, the listener and `globals.rs`.
