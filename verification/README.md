# httpmon: a verified model of its core algorithms

httpmon is a terminal HTTP debugging proxy. This project models the parts of it
that are algorithms or protocols, and proves what they promise for every input,
every run or every interleaving. `dafny verify dfyconfig.toml` checks all of it.

Code that the repository writes as loops or as objects with changing fields is
modelled as methods and classes, each proved against a specification function or
an outright property; lemmas then say what the specification means.

| file | models | main results |
|---|---|---|
| `Diff.dfy` | line diff of bodies | the table holds the true LCS lengths; the walk rebuilds both bodies at the least possible cost |
| `Glob.dfy` | URL patterns | the greedy matcher decides the declarative meaning of `*`, the older scan is the same matcher with a star at both ends, and a star in a host stays in one label exactly when the dots are as many |
| `Breakpoint.dfy` | pause/resume controller | over every interleaving nobody is lost, blocked, answered twice or answered with another flow's value, and whoever had subscribed is notified of a hit exactly once |
| `PathMatch.dfy` | Go's `path.Match`, used for hosts | agrees with the matcher of `Glob.dfy` on patterns with stars only |
| `GrpcWeb.dfy` | gRPC-Web framing and script codec | both frame walkers agree with the format, with each other and with the encoder; scripts never lose a trailer |
| `Protobuf.dfy` | schema-less wire decoder | fields and values of every encoded message come back in order; decoding is a homomorphism on concatenation; exactly the well-formed messages decode |
| `RingBuffer.dfy` | flow store | slots, index and data map refine one bounded queue over every run, and a flow added again never shows old data; listing and paging |
| `HeaderEditor.dfy` | header printer and parser | the two undo each other exactly on proper headers |
| `Throttle.dfy` | throttled reader | the byte rate bound at every return, and an unchanged stream |
| `HeaderYaml.dfy` | the YAML of script headers | which document is read, and what changing, adding or putting a key line in front does to its fields |
| `ScriptHeader.dfy` | script header rewriting | exactly when toggling and id backfill do what they should |
| `GoStrings.dfy` | the used parts of Go's `strings` | splitting, joining, searching, trimming |
| `Common.dfy` | shared helpers | options, bytes, the first element with a property |

## How to read it

- Text that the Go code handles as bytes (diff) is a sequence of characters, one
  per byte; script files and the header editor, where blanks are trimmed, and URL
  patterns, where letters are lower-cased, are read as code points.
- A Go pair of value and error is an `Option`, a `Result` or a `Read`; the error
  text is left out.
- `Breakpoint.State` interleaves goroutines one locked section or one channel
  operation at a time; `Breakpoint.Controller` holds the locked sections
  themselves, each proved to be one step of that protocol. The field `place` is
  bookkeeping that no step looks at.
- Lower-casing a character follows the Unicode tables, given as a parameter that
  moves no `:` or `/`; host patterns follow the grammar in the documentation of
  Go's `path.Match`.
- The readers for tags, varints, fixed-size and length-delimited values and
  groups follow the Protocol Buffers "Encoding" specification.

## Where the code does not do what its comments say

- `ToggleEnabled` (internal/scripting/loader.go:106-108) promises to flip the
  enabled state. It takes the first line of the whole file that looks like the
  setting, so it can rewrite a line of the body; it writes behind a document
  marker of the header, where nothing is read; and it adds a second setting next
  to one written without the space after `//`, which the next load rejects.
  `ScriptHeader.ToggleFlipsIff` gives the exact condition for headers of the form
  that `HeaderYaml` describes, and `ScriptHeader.ToggleCanMissTheHeader` a file
  on which it fails.
- `ensureScriptID` (internal/scripting/loader.go:20-21) promises to fill in a
  missing id. A header with an empty `// id:` line also counts as missing one and
  gets a second id line, and a header that opens with a document marker gets its
  id in a document of its own; the next load rejects both.
  `ScriptHeader.BackfillAcceptedIff` gives the exact condition for headers of the
  same form, `ScriptHeader.BackfillCanReject` and
  `ScriptHeader.BackfillBehindMarkerRejects` a file on which it fails for each
  reason.
- `GlobMatch` (internal/scripting/glob.go:11-12) promises that a star of the host
  matches a single domain label. It compares hosts with `path.Match`, whose star
  is only stopped by a slash. `Glob.PromisedMatchIff` gives the exact condition
  for patterns with stars only, and `Glob.StarCrossesDots` a family of URLs on
  which the promise fails.

## Model

| member | source | states |
|---|---|---|
| Diff.BuildTable | internal/diff/diff.go:180-194 | the nested loops fill every cell `(i, j)` with the recurrence value of the suffixes from `i` and `j`, all indices in bounds |
| Diff.LcsIsLongest | internal/diff/diff.go:186-194 | that value is the length of a longest common subsequence: one of that length exists and no common subsequence is longer |
| Diff.Result.SimpleDiff | internal/diff/diff.go:196-209 | the walk terminates in bounds and appends exactly the lines the recurrence prescribes, adds before deletes on ties, to the lines already there |
| Diff.WalkRebuilds | internal/diff/diff.go:196-209 | the walk's ctx and del lines are the first text, its ctx and add lines the second, and it keeps exactly as many lines as the LCS has |
| Diff.WalkIsMinimal | internal/diff/diff.go:196-209 | no diff between the same two texts has fewer added and deleted lines |
| Diff.DiffKeepsCommonLines | internal/diff/diff.go:12-16 | what any diff keeps is common to both sides, and its cost is what is left of both |
| Diff.Result.DiffBody | internal/diff/diff.go:147-177 | for all bodies the section rebuilds both of them, has an add or del line exactly when they differ, is minimal up to 200 lines and sequential above |
| Diff.Result.HasChanges | internal/diff/diff.go:24-28 | true exactly when some line is added or deleted |
| Diff.NoChangeMeansEqual | internal/diff/diff.go:24-28 | a diff without added or deleted lines has equal sides |
| Glob.WildcardMatch | internal/scripting/glob.go:45-71 | the greedy match succeeds exactly when the text matches the pattern declaratively, for every pattern and text |
| Glob.MiddleLiteral | internal/scripting/glob.go:60-67 | taking the first occurrence of a middle part neither loses nor invents a match |
| Glob.LastLiteral | internal/scripting/glob.go:69-70 | after a star, the last part matches exactly as a suffix |
| Glob.MatchURL | internal/scripting/scripting.go:608-627 | the unanchored scan of the lower-cased texts, with or without `*`, decides the same relation as the pattern with a star added at both ends |
| Glob.HostAndPath | internal/scripting/glob.go:82-89 | host and path make up the text, the host has no slash, and the path is empty or starts with one |
| Glob.SchemeAndRest | internal/scripting/glob.go:73-80 | scheme and rest are the texts around the first separator, or there is none and the scheme is empty |
| Glob.PartsOfText | internal/scripting/glob.go:73-89 | splitting a URL at its scheme and path gives back the parts it was put together from |
| Glob.GlobMatch | internal/scripting/glob.go:14-37 | on any two texts, and so on URLs put together from parts, the match is that of scheme, host and path in lower case |
| Glob.StarOnlyHost | internal/scripting/glob.go:29-33 | on host patterns with stars only, the library's match is the declarative match of this project |
| Glob.StarStaysInLabel | internal/scripting/glob.go:11-33 | the stars of a matching host pattern each stay inside one label exactly when the host has as many dots as the pattern |
| Glob.PromisedMatchIff | internal/scripting/glob.go:11-37 | a URL matches with the promised meaning of host stars exactly when it matches and its host has as many dots as the pattern's |
| Glob.StarCrossesDots | internal/scripting/glob.go:11-37 | putting any labels with a dot in front of a host that a pattern promises keeps the match and breaks the promise |
| Breakpoint.StepKeepsInv | internal/breakpoint/controller.go:29-97 | every locked section and channel operation, in any interleaving with one live Pause per flow, keeps the protocol invariant |
| Breakpoint.RunInv | internal/breakpoint/controller.go:29-97 | so every state of every run satisfies it |
| Breakpoint.RegisterKeepsPauses | internal/breakpoint/controller.go:35-39 | registering overwrites no other hit in the pending map |
| Breakpoint.ExactlyOnePlace | internal/breakpoint/controller.go:35-48 | a registered Pause that has not returned is in exactly one of the pending map, one call's hands, or its own full channel |
| Breakpoint.SendsNeverBlock | internal/breakpoint/controller.go:69-71 | a resumer that holds a hit can always send; its channel has room |
| Breakpoint.NotificationsNeverBlock | internal/breakpoint/controller.go:41-46 | a notification always completes, and a full subscriber of 16 hits just misses it |
| Breakpoint.NobodyIsForgotten | internal/breakpoint/controller.go:85-97 | with the map empty and no call mid-send, every waiting Pause has its answer |
| Breakpoint.OnlyAResumeIsWaitedFor | internal/breakpoint/controller.go:48 | a Pause that blocks can return now, is about to be sent to, or waits in the map |
| Breakpoint.ReturnedAnswers | internal/breakpoint/controller.go:48 | a returned value is that of one Resume for the own flow that serves no other Pause, or the skip of a ResumeAll |
| Breakpoint.ReturnedValueWasSent | internal/breakpoint/controller.go:59-97 | the returned value was sent to this very Pause at an earlier step of the run |
| Breakpoint.AnsweredAndReturnedOnce | internal/breakpoint/controller.go:48-71 | over a whole run no hit is answered twice and no Pause returns twice |
| Breakpoint.ResumeSendsOnce | internal/breakpoint/controller.go:59-72 | one Resume call sends at most once |
| Breakpoint.FirstCallDecides | internal/breakpoint/controller.go:59-97 | a `Pause` that is pending when a call for it, or a `ResumeAll`, takes its hits is taken, and whatever it returns later is that call's value, or the skip |
| Breakpoint.ReturnIsFinal | internal/breakpoint/controller.go:48 | nothing later changes what a Pause returned |
| Breakpoint.NotifiedOnce | internal/breakpoint/controller.go:37-46 | over a whole run no subscriber is notified twice of one hit |
| Breakpoint.NotifiedAfterSubscribing | internal/breakpoint/controller.go:37-57 | a subscriber is notified only of hits registered after its subscription |
| Breakpoint.SubscribersAreNotified | internal/breakpoint/controller.go:37-48 | every subscriber at the time of registration is notified before the `Pause` is done notifying |
| Breakpoint.InboxIsFifo | internal/breakpoint/controller.go:41-55 | over a whole run what a subscriber has read, followed by its channel, is exactly what was delivered to it, in order |
| Breakpoint.Controller.Enter | internal/breakpoint/controller.go:35-39 | the locked section of Pause is the protocol's register step, with the subscribers of that moment |
| Breakpoint.Controller.AddSubscriber | internal/breakpoint/controller.go:53-55 | the locked section of Subscribe is the protocol's subscribe step |
| Breakpoint.Controller.TakeOne | internal/breakpoint/controller.go:62-67 | the locked section of Resume is the protocol's take step for one flow |
| Breakpoint.Controller.TakeAll | internal/breakpoint/controller.go:86-92 | the loop of ResumeAll lists every pending hit exactly once and is the take step for all flows |
| Breakpoint.Controller.Pending | internal/breakpoint/controller.go:74-83 | lists exactly the pending hits, each once |
| GrpcWeb.ExtractDataFrames | internal/bodydecoder/grpcweb.go:98-136 | the walk returns the data of all data frames and the notes in order, and fails exactly on a cut-off header |
| GrpcWeb.ExtractNonDataFrames | internal/bodydecoder/grpcweb.go:79-94 | the walk returns the bytes of all other frames, a truncated last one included |
| GrpcWeb.WalkersReadFrames | internal/bodydecoder/grpcweb.go:79-136 | on every list of frames laid out as the format says, one walker returns all data payloads and the other all other frames |
| GrpcWeb.WalkersDistribute | internal/bodydecoder/grpcweb.go:79-136 | after complete frames both walkers treat the rest of a body on its own |
| GrpcWeb.FramesAccountForEveryByte | internal/bodydecoder/grpcweb.go:79-136 | body length is payload length plus five per data frame plus the length of what is kept |
| GrpcWeb.KeptFramesStay | internal/bodydecoder/grpcweb.go:77-94 | what is kept of any body, truncated or not, holds no data and is kept whole again |
| GrpcWeb.PutUint32 | internal/bodydecoder/grpcweb.go:39-41 | the big-endian length is read back as written |
| GrpcWeb.Encode | internal/bodydecoder/grpcweb.go:30-47 | fails exactly on a codec error or an oversized payload, and otherwise fills the buffer with one data frame followed by the kept frames |
| GrpcWeb.ReencodingRoundTrip | internal/bodydecoder/grpcweb.go:38-46 | for every payload that fits and every original body, even a malformed one, the encoding yields exactly that payload and exactly the original's other frames |
| GrpcWeb.DecodedEncoding | internal/bodydecoder/grpcweb.go:30-68 | decoding what was encoded gives the codec's reading of the new payload, or an empty object, with the notes about the original's other frames behind it, and fails exactly when the codec does |
| GrpcWeb.KeptNotesStay | internal/bodydecoder/grpcweb.go:77-136 | the notes about any body are those about its kept frames, and one more if the body ends inside a data frame |
| GrpcWeb.RegistryUsesGrpcWeb | internal/bodydecoder/decoder.go:43-61 | when the gRPC-Web decoder is the first to accept a content type, decoding and encoding both go through it |
| GrpcWeb.RunScriptsWithCodec | internal/proxy/interceptor.go:67-95 | whatever the script does, a gRPC-Web body keeps its other frames; an unchanged text or a failed encode returns the input bytes |
| Protobuf.DecodeWireFields | internal/bodydecoder/protobuf.go:83-157 | the loop terminates, also through nested values, and computes the fold of the message's fields, or fails |
| Protobuf.MessageIffWellFormed | internal/bodydecoder/protobuf.go:161-171 | a value is shown as a nested message exactly when it is not empty and can be stepped over field by field to the very end; any other is kept as it is |
| Protobuf.AppendField | internal/bodydecoder/protobuf.go:220-235 | adds the value to the entry of its number, turning it into an array, or as a new last entry |
| Protobuf.FoldIsGrouped | internal/bodydecoder/protobuf.go:211-235 | keys are distinct and in first-occurrence order, and each holds exactly its values in wire order, as an array when there are several |
| Protobuf.DecodedIsGrouped | internal/bodydecoder/protobuf.go:81-157 | so is every decoded message |
| Protobuf.DecodeConcat | internal/bodydecoder/protobuf.go:83-157 | when the first message decodes, the concatenation decodes exactly when the second does, to the fold of the second's fields into the first's result |
| Protobuf.ParseConcat | internal/bodydecoder/protobuf.go:85-155 | the fields of the concatenation are those of both messages in a row |
| Protobuf.DecodesIffWellFormed | internal/bodydecoder/protobuf.go:83-157 | a message decodes exactly when every field can be stepped over to the very end; no content makes it fail |
| Protobuf.GroupContentParses | internal/bodydecoder/protobuf.go:137-147 | the content of a consumed group always decodes, so its error branch is never taken |
| Protobuf.SkipAgreesWithParse | internal/bodydecoder/protobuf.go:85-154 | stepping over a field and decoding it succeed together and use the same number of bytes |
| Protobuf.FieldRoundTrip | internal/bodydecoder/protobuf.go:86-154 | each encoded field of any kind is read back with its number and value |
| Protobuf.DecodeEncoded | internal/bodydecoder/protobuf.go:83-157 | every encoded list of valid fields, groups nested to any depth, decodes to its numbers and values in order |
| Protobuf.VarintRoundTrip | internal/bodydecoder/protobuf.go:97-102 | every 64-bit value survives its varint encoding |
| RingBuffer.Buffer.constructor | internal/store/ringbuffer.go:20-27 | a new buffer stands for the empty queue |
| RingBuffer.Buffer.Add | internal/store/ringbuffer.go:30-47 | is the queue's add: behind the newest, dropping the oldest with its data when full; the index stays exact |
| RingBuffer.Buffer.Update | internal/store/ringbuffer.go:50-59 | changes exactly the live flow with that id, or nothing |
| RingBuffer.Buffer.UpdateData | internal/store/ringbuffer.go:63-76 | changes the data of a live flow, starting from empty data, or nothing |
| RingBuffer.Buffer.SetData | internal/store/ringbuffer.go:79-87 | replaces the data of a live flow, or nothing |
| RingBuffer.Buffer.Get | internal/store/ringbuffer.go:90-100 | finds exactly the live flows, with their data if any |
| RingBuffer.Buffer.List | internal/store/ringbuffer.go:104-129 | is the requested slice of the filtered reversed queue, with the filtered length as total |
| RingBuffer.Buffer.Len | internal/store/ringbuffer.go:132-136 | is the length of the queue |
| RingBuffer.ApplyKeepsValid | internal/store/ringbuffer.go:30-87 | every allowed operation keeps the bound, distinct ids, and data for live flows only |
| RingBuffer.RunHoldsLastFlows | internal/store/ringbuffer.go:30-87 | after every run the queue is the last `capacity` flows of the unbounded history, in order |
| RingBuffer.LiveIdsAreLastAdded | internal/store/ringbuffer.go:30-47 | after every run the live ids are the last `capacity` ids added |
| RingBuffer.LiveDataIsSinceAdd | internal/store/ringbuffer.go:30-87 | after every run the data of a live flow is what the data operations since its own last add made of it, and there is none for other ids |
| RingBuffer.WriteOldest | internal/store/ringbuffer.go:34-45 | writing the head slot of a full ring and moving the head on is dropping the oldest and appending |
| RingBuffer.PagesCoverRest | internal/store/ringbuffer.go:119-128 | consecutive pages of any size put together are the unlimited listing |
| HeaderEditor.FormatHeadersForEditor | internal/tui/breakpoint.go:69-81 | prints the headers in ascending name order without trailing newlines |
| HeaderEditor.ParseHeadersFromEditor | internal/tui/breakpoint.go:83-96 | the loop puts each line's header in turn, later lines winning |
| HeaderEditor.RoundTripIffGood | internal/tui/breakpoint.go:69-96 | parsing the printed headers gives them back exactly when names and values are trimmed and newline-free and names colon-free |
| HeaderEditor.ParseSettles | internal/tui/breakpoint.go:69-96 | for every text, printing and parsing what was parsed changes nothing |
| HeaderEditor.PutLine | internal/tui/breakpoint.go:85-94 | a printed line puts exactly its header |
| Throttle.Reader.Read | internal/throttle/throttle.go:43-74 | returns the next bytes of the stream unchanged and at most the chunk limit, and at the time of return the total is within the rate; the sleep is no longer than needed; the history of all earlier reads keeps these bounds |
| Throttle.RateIffExpectedTime | internal/throttle/throttle.go:66-71 | the rate holds exactly when at least the expected time has passed |
| Throttle.KeptRateGrows | internal/throttle/throttle.go:63-73 | one more read within the bounds keeps them for the whole history, which is the step by which every sequence of reads keeps them |
| ScriptHeader.ParseHeader | internal/scripting/header.go:32-85 | the two searches cut the file at its first two delimiter lines and read the lines between |
| ScriptHeader.CutOfLines | internal/scripting/header.go:35-57 | a file put together from its parts is cut back into them |
| ScriptHeader.ToggleEnabled | internal/scripting/loader.go:109-151 | the two loops replace the first line that looks like the setting, or add one before the closing delimiter |
| ScriptHeader.ToggleFlipsIff | internal/scripting/loader.go:106-151 | toggling an accepted file flips the setting exactly when its first setting-like line, if any, lies in the part of the header that is read, and otherwise that part reaches the end and no line sets the key; then body and other fields stay and three toggles equal one |
| ScriptHeader.ToggleCanMissTheHeader | internal/scripting/loader.go:124-133 | an accepted file whose toggle rewrites the body and leaves the setting |
| ScriptHeader.SettingRewritten | internal/scripting/header.go:59-72 | rewriting a setting-like line of a header that is read sets the key, and changes nothing else, exactly when the line lies in the first document |
| ScriptHeader.SettingAppended | internal/scripting/header.go:59-72 | a setting line at the end takes effect, is a rejected duplicate, or is not read, exactly as the first document ends and sets the key |
| ScriptHeader.EnsureScriptID | internal/scripting/loader.go:22-40 | leaves a file with an id alone and otherwise adds a line behind the first delimiter |
| ScriptHeader.BackfillAcceptedIff | internal/scripting/loader.go:20-40 | the rewritten file is accepted, with the new id and the same body and fields, exactly when no line of the document sets the id and no marker opens it |
| ScriptHeader.BackfillCanReject | internal/scripting/loader.go:23-32 | an accepted file with an empty id line that the backfill turns into a rejected one |
| ScriptHeader.BackfillBehindMarkerRejects | internal/scripting/loader.go:23-32 | so is an accepted file whose header opens with a document marker |
| HeaderYaml.OnlyNulls | internal/scripting/header.go:70-79 | a `match` of nothing but nulls counts as missing |
| HeaderYaml.DocumentReplaced | internal/scripting/header.go:59-72 | changing one line of a header changes one line of the document that is read, or none |
| HeaderYaml.IdPrefixed | internal/scripting/header.go:59-72 | an id line in front of a header that is read takes effect exactly when no marker opens the document and no line of it sets the id |
| HeaderYaml.KeyLineKind | internal/scripting/header.go:59-67 | a key line written by the program is read back as that key and value |
| GoStrings.SplitOfJoin | internal/scripting/loader.go:27-32 | splitting undoes joining when no part holds the separator |

## Left out

- Breakpoint.Enabled: a step `CallPause` asks that no live Pause has the flow's id, which internal/scripting/scripting.go:269 guarantees for one script run; two live Pauses of one flow, and a Pause that starts after the last ResumeAll, are not considered.
- Breakpoint.Hit: the flow summary carried with a hit is left out; no step looks at it.
- Protobuf.SkipGroup: the nesting depth limit of the Go protobuf library is not modelled; the specification has none.
- Protobuf.Interpreted: whether a leaf is shown as text or as base64 is left out, and so is the float reading of fixed-size values and the JSON rendering.
- GrpcWeb.ProtoCodec: named protobuf decoding and encoding and the wording of notes are parameters; an absent decoder registry is `None`.
- GrpcWeb.Decoder: content types are compared as given, without stripping parameters.
- Glob.MatchURL: taking host and path out of the raw URL is outside the model.
- PathMatch.PathMatches: the library is taken at its documentation, not at its code; malformed UTF-8 is not considered, here and in `Glob`.
- RingBuffer.Allowed: an added id must not be live and updates keep the id; duplicate ids are not considered.
- RingBuffer.Buffer.UpdateData: flow data are values, so later changes through a pointer kept by the caller are not captured; the read-write lock makes each method one step.
- RingBuffer.FlowMeta: all fields but the id are one abstract field.
- Throttle.ExpectedTime: the floating-point expression is the floor of the exact quotient, and the 64-bit range of durations is not modelled.
- HeaderYaml.ReadMeta: headers are read line by line. Lines other than blank and comment lines, document markers, unindented `key: value` lines with a scalar or a bracketed list, and equally indented list items below a key without a value count as rejected when they lie in the first document, also where yaml.v3 reads them: indented keys, other characters than letters, digits and `_` in a key or blanks around it, values over several lines, comments behind a value, single quotes, escapes, plain scalars with other characters than letters, digits, `_`, blanks, `-`, `.` and `/`, nested collections, tabs and text outside ASCII.
- HeaderYaml.Document: lines behind the first document are not looked at, while yaml.v3 rejects some of them, among them control characters and broken tokens near the end of that document.
- ScriptHeader.Parse: reading and writing the files is left out, and so is the text of errors.
- HeaderEditor.Format: text is valid Unicode; malformed UTF-8 is not considered.
- Diff.Result.DiffBody: the field and header sections of a comparison are left out; for headers a missing and an empty value look the same.
- Networking, certificates, the user interface, the script runtime, the control server, host and content filters, exports and configuration are left out.
