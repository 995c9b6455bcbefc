# FluxTerm: verified models of its stream, protocol and storage code

FluxTerm is a desktop terminal. This project models the parts of it that are small state machines, stream transformers
or file-backed stores, and proves what those parts are for. There is one module per component; `Wrappers`, `Text`,
`Sequences` and `Connections` hold the result types, string operations, concatenation and duplex connection that the
others share.

Code that changes an object is a class whose methods are proved against a function of the old state (`Next`,
`Trusted`, `Drain`, ...); the results about whole runs are lemmas about that function. What the original leaves to
threads, timers, promises or other processes is an arbitrary sequence of atomic steps, so a statement about every run
covers every interleaving.

| module | component |
|---|---|
| `Utf8`, `TerminalOutput` | incremental lossy UTF-8 decoding and the local-shell output thread |
| `PerformanceTelemetry` | telemetry sink, bounded channel and worker |
| `WildcardMatch`, `Socks5`, `HttpConnect` | outbound proxies: override rules, SOCKS5 handshake, HTTP response head |
| `SshConfig`, `SshConfigImport` | OpenSSH configuration rewriting and import |
| `TerminalQueue` | serial write queue in front of the terminal, buffer of a session without one |
| `SessionInput` | per-session input promise chain |
| `KnownHosts` | known_hosts text file |
| `ConfigKeyStore`, `SecurityInitialization` | configuration key file and secret storage startup |
| `ConfigPaths` | configuration directory and bootstrap file |
| `LayoutModel` | widget layout normalisation and slot operations |
| `SerialLog` | byte-bounded serial monitor log |

## What does not hold as one might expect

Each entry names the theorem that says exactly when the code meets the expectation, and a lemma at an input where it
does not.

- After a successful start of the secret storage, a second one succeeds and changes nothing exactly when a master
  password is in use, or the id of the stored key, of the new one when there is no file, has no surrounding whitespace:
  it is written as it is but compared trimmed (`SecondStartIff`; input: `PaddedIdFailsSecondStart`).
- The predicted next directory is wrong exactly when the bootstrap file was unreadable at startup, the environment
  variable is not set, a language was saved and no directory was chosen (`PredictionIff`; input:
  `SavedLocaleBreaksPrediction`).
- A trusted host key is recognised afterwards exactly when pattern, algorithm and key are words and the pattern does
  not look like a comment (`TrustedIffStorable`; input: `BlankHostStaysUnknown`). Two different host and port pairs share
  a pattern exactly when one host is spelled as the other's bracket form (`PatternsCollideIff`; input:
  `BracketHostIsTrustedElsewhere`).
- A trust sets the answer for its own record and for no other exactly when that record is storable in the same sense
  (`TrustIsMapUpdateIff`; input: `BlankHostAnswersForAnother`).
- The kept lines of a trust are verbatim exactly when none of them ends in a carriage return (`TrustKeepsOtherLines`;
  input: `CommentLosesCarriageReturn`). A trust that replaces no record leaves the bytes of the file in front of the new
  entry unchanged exactly when the file is empty or ends in a line feed, and no break is a carriage return and a line
  feed (`TrustAppendsIff`; inputs: `CommentBreakChanges`, `MissingBreakIsAdded`).
- The SOCKS5 authentication request conforms to section 2 of RFC 1929 exactly when user name and password are both
  nonempty (`AuthConformsIff`; input: `MissingUserIsSentEmpty`, carried through the handshake by `ConnectWithoutUser`).
- A completed handshake chose an offered method, as section 3 of RFC 1928 demands, exactly when the server chose 0, or 2
  with a user name configured (`ChoiceIsOfferedIff`). Any other choice but 0xFF is accepted too, as long as the lengths
  fit (`ConnectChoosing`; input: `UnofferedMethodSucceeds`, carried through the handshake by `ConnectUnoffered`).
- The telemetry worker can be stopped by a shutdown exactly when the first request finds room in the channel; otherwise
  it runs on in every continuation, later requests included (`FirstRequestDecides`; input: `FullChannelLosesShutdown`).
- Two batches of one opening of a telemetry stream share a batch number exactly when the 64-bit counter was saturated at
  the first (`BatchNumbersRepeatIff`; input: `SaturatedNumberRepeats`).
- The buffer of a session without a terminal begins inside a surrogate pair exactly when its cut falls there
  (`KeptKeepsPairsIff`; input: `KeptCutsPair`); the write queue never cuts a pair.
- One more slot on a side of the layout is the slot the new count asks for exactly when the count is whole or above
  nine (`IncreaseKeepsNormalIff`; input: `FractionalCountMissesSlot`), and a shown widget disappears exactly when the
  count is between nine and ten and the last slot shows one (`IncreaseKeepsWidgetsIff`; input:
  `FractionalCountLosesWidget`). A side has as many slots as its count rounded up (`ShapeIs`).

## Assumptions about code not shown

The telemetry encoder splits the metrics into some number of chunks, or fails; the numbering of the datagrams is
modelled. Resolving an imported alias is a deterministic function of the configuration text; fresh identifiers are
parameters. Fingerprints, encrypted payload headers and directory checks are parameters. Writing the bootstrap file and
renaming the key file into place are atomic, as the library calls promise.

## Model

| member | source | states |
|---|---|---|
| Utf8.FirstMeaning | crates/engine/src/util.rs:21-59 | The contract of the standard UTF-8 check, from the encoding alone: a character is recognised exactly when its encoding is a front of the input, input is "cut short" exactly when it is a proper prefix of some encoding, and an error covers the maximal subpart of section 3.9 of the Unicode Standard |
| Utf8.ErrorFollowsValid | crates/engine/src/util.rs:25-40 | The reported error sits directly behind a valid part and has the reported length, or no length when the input ended |
| Utf8.ValidIffEncoded | crates/engine/src/util.rs:25-29 | Input is accepted as valid exactly when it is the encoding of some text |
| Utf8.ValidDecodes | crates/engine/src/util.rs:26-37 | Valid input decodes to characters that encode back to it, with nothing left over |
| Utf8.LeftoverIsShort | crates/engine/src/util.rs:47-54 | What a non-final call leaves is empty or a proper prefix of one encoding, the end of the input, and at most three bytes |
| Utf8.Resume | crates/engine/src/util.rs:21-59 | Stopping at any byte and resuming with the leftover yields the decoding of the whole |
| Utf8.DecodeEncode | crates/engine/src/util.rs:21-59 | Decoding the encoding of any text gives that text and leaves nothing |
| TerminalOutput.DecodeTerminalOutput | crates/engine/src/util.rs:21-59 | The in-place loop over valid parts and errors computes the decoding and drains the buffer to the leftover; a final call decodes everything and leaves nothing |
| TerminalOutput.ChunkInvariance | crates/engine/src/util.rs:21-59 | For every cutting of the input into chunks the texts concatenate to the decoding of the whole |
| TerminalOutput.TextSurvivesChunking | crates/engine/src/util.rs:21-59 | Any text, encoded and cut anywhere, is decoded back to itself |
| TerminalOutput.Emit | src-tauri/src/local_shell.rs:104-116 | An emitted batch is appended to the output and an empty one is not emitted |
| TerminalOutput.ByteBuffer.Append | src-tauri/src/local_shell.rs:560-572 | The chunk is appended and the largest size the buffer ever had is kept up to date |
| TerminalOutput.CollectBatch | src-tauri/src/local_shell.rs:565-579 | The inner loop takes chunks in order and stops at the very event that ends the interval, fills the batch or closes the channel; the pending buffer is never larger than 65535 + 8192 bytes |
| TerminalOutput.RunOutputThread | src-tauri/src/local_shell.rs:559-594 | For every chunking, schedule and timeout pattern, the emitted batches spell the lossy decoding of all bytes received; each time the interval ends, everything decided until then has been emitted; apart from the last there are no more batches than ends of the interval and full buffers; none is empty, and the largest size the pending buffer ever had is at most 65535 + 8192 bytes |
| WildcardMatch.Find | crates/engine/src/ssh_transport.rs:714-716 | The leftmost occurrence, or none |
| WildcardMatch.GreedyStep | crates/engine/src/ssh_transport.rs:710-718 | Continuing behind the leftmost occurrence of a middle part matches exactly when any choice would |
| WildcardMatch.LastPart | crates/engine/src/ssh_transport.rs:719-722 | The last part matches exactly as a suffix |
| WildcardMatch.Matches | crates/engine/src/ssh_transport.rs:695-723 | The greedy matcher returns true exactly when the value matches the pattern under the recursive glob definition |
| Socks5.TranscriptEndsOnce | crates/engine/src/ssh_transport.rs:409-489 | At most one front of the server's bytes is a complete successful transcript |
| Socks5.Authenticate | crates/engine/src/ssh_transport.rs:491-517 | Succeeds exactly when both strings fit their length bytes, the request can be written and the reply is 01 00; writes the request and consumes two bytes; too long credentials write nothing |
| Socks5.ReadBoundAddress | crates/engine/src/ssh_transport.rs:519-543 | Succeeds exactly when the address type is known and the address and port are there, and consumes exactly them |
| Socks5.Negotiate | crates/engine/src/ssh_transport.rs:409-443 | Succeeds exactly on an acceptable method reply, with authentication when the server selects it, and leaves the stream behind those replies; each failure has its exact cause |
| Socks5.SendRequest | crates/engine/src/ssh_transport.rs:446-470 | Writes the CONNECT request unless the host name does not fit its length byte |
| Socks5.ReadReply | crates/engine/src/ssh_transport.rs:472-488 | Succeeds exactly when a complete successful reply of section 6 of RFC 1928 is there, and consumes exactly it; a head that tells of a failure gives that failure |
| Socks5.Connect | crates/engine/src/ssh_transport.rs:409-489 | Succeeds exactly when everything can be encoded and written and the server's bytes begin with a successful transcript; then exactly that transcript is consumed, so the next byte is the first SSH byte. A wrong version, no acceptable method, credentials or a host name that do not fit, failed authentication, an unresolved target, a refusal with its code and an unknown address type each give their own failure, and an input or output failure means that bytes were missing or could not be written |
| Socks5.CredentialsDecode | crates/engine/src/ssh_transport.rs:491-502 | A reader of section 2 of RFC 1929 gets the same user name and password back |
| Socks5.TargetDecodes | crates/engine/src/ssh_transport.rs:446-468 | A reader of section 4 of RFC 1928 gets the same address back |
| Socks5.RequestDecodes | crates/engine/src/ssh_transport.rs:446-470 | The CONNECT request reads back as the same address and port |
| Socks5.ClientBytesDecode | crates/engine/src/ssh_transport.rs:409-517 | Everything the client writes reads back as the offered methods, credentials, address and port, with no byte over |
| Socks5.AuthConformsIff | crates/engine/src/ssh_transport.rs:491-502 | A request that fits conforms to section 2 of RFC 1929 exactly when neither string is empty |
| Socks5.ChoiceIsOfferedIff | crates/engine/src/ssh_transport.rs:427-443 | Of all server streams that complete the handshake, the choice is an offered one, as section 3 of RFC 1928 demands, exactly when it is 0, or 2 with a user name configured |
| Socks5.ConnectChoosing | crates/engine/src/ssh_transport.rs:409-489 | With a connection that takes all bytes, the handshake succeeds for every choice but 0xFF exactly when the host name fits and, for choice 2, the credentials fit, whether or not the choice was offered |
| Socks5.UnofferedMethodSucceeds | crates/engine/src/ssh_transport.rs:427-443 | The concrete reply: a transcript that chooses method 1, which is never offered, is complete |
| Socks5.ConnectUnoffered | crates/engine/src/ssh_transport.rs:409-489 | The handshake with that server succeeds |
| Socks5.MissingUserIsSentEmpty | crates/engine/src/ssh_transport.rs:441-502 | The concrete reply: a server that chooses method 2 without a user name configured is sent two empty strings, which does not conform to section 2 of RFC 1929 |
| Socks5.ConnectWithoutUser | crates/engine/src/ssh_transport.rs:409-517 | The handshake with that server succeeds and has written exactly those bytes |
| HttpConnect.ReadHttpHead | crates/engine/src/ssh_transport.rs:373-387 | Reading stops at the first blank line, so the next byte is the first SSH byte, or at 8192 bytes or the end of the stream |
| PerformanceTelemetry.TelemetryService.Send | src-tauri/src/performance_telemetry.rs:387-402 | The message is queued and counted as accepted when the channel has room, otherwise only counted as dropped |
| PerformanceTelemetry.TelemetryService.Open | src-tauri/src/performance_telemetry.rs:414-442 | The registry gains the stream exactly when the message was accepted; an open stream or an unencodable descriptor is invalid |
| PerformanceTelemetry.TelemetryService.Record | src-tauri/src/performance_telemetry.rs:444-469 | Batches of unknown streams or of bad shape are invalid, others go to the channel |
| PerformanceTelemetry.TelemetryService.Close | src-tauri/src/performance_telemetry.rs:471-497 | The registry loses the stream exactly when the message was accepted |
| PerformanceTelemetry.TelemetryService.StartShutdown | src-tauri/src/performance_telemetry.rs:632-647 | Only the first request tries the channel |
| PerformanceTelemetry.TelemetryService.SendParts | src-tauri/src/performance_telemetry.rs:703-705 | The datagrams of a batch carry consecutive sequence numbers |
| PerformanceTelemetry.TelemetryService.CloseEveryStream | src-tauri/src/performance_telemetry.rs:738-749 | Draining the map in any order attempts one close for every stream |
| PerformanceTelemetry.TelemetryService.ReceiveOne | src-tauri/src/performance_telemetry.rs:656-755 | The worker's loop body performs the step of the state machine for each kind of message |
| PerformanceTelemetry.EncodeSnapshot | crates/performance_telemetry/src/protocol.rs:78-189 | Sequence numbers after a snapshot stay within the wire's integers |
| PerformanceTelemetry.InStepNext | src-tauri/src/performance_telemetry.rs:414-497 | Every atomic step keeps the registry equal to the worker's keys after replaying the queue |
| PerformanceTelemetry.RegistryIsReplayedWorker | src-tauri/src/performance_telemetry.rs:386-755 | In every interleaving the registry is exactly the worker's streams after replaying the queue |
| PerformanceTelemetry.EveryMessageFits | src-tauri/src/performance_telemetry.rs:664-736 | Every queued batch or close finds its stream and no queued open hits a live one |
| PerformanceTelemetry.UnknownStreamBranchesUnreachable | src-tauri/src/performance_telemetry.rs:664-736 | In every run the worker never meets an unknown stream and never overwrites a live one |
| PerformanceTelemetry.DroppedCloseLeavesBothOpen | src-tauri/src/performance_telemetry.rs:489-497 | A dropped close leaves the stream open on both sides |
| PerformanceTelemetry.CallsAreAnswered | src-tauri/src/performance_telemetry.rs:387-497 | A valid open of a new stream, and a valid record or close of a registered one, is accepted exactly when the worker runs and the channel has room; only accepted calls change the queue and the registry |
| PerformanceTelemetry.ChannelIsFifo | src-tauri/src/performance_telemetry.rs:386-755 | In every run, the messages the worker took followed by the queue are the accepted calls in order |
| PerformanceTelemetry.CountersCount | src-tauri/src/performance_telemetry.rs:387-497 | Over every run the accepted and dropped counters count the calls answered so, and the invalid one at least those |
| PerformanceTelemetry.QueueEmpties | src-tauri/src/performance_telemetry.rs:656-736 | The worker alone handles every queued message and then holds exactly the registered streams |
| PerformanceTelemetry.CloseReachesWire | src-tauri/src/performance_telemetry.rs:471-736 | From every serving state, worker steps and one close bring one Closed with the stream's next number to the wire and leave it on neither side, ready to be opened again |
| PerformanceTelemetry.OpenReachesWire | src-tauri/src/performance_telemetry.rs:414-676 | From every serving state, worker steps and one open bring one Opened to the wire and leave the stream open on both sides |
| PerformanceTelemetry.BatchReachesWire | src-tauri/src/performance_telemetry.rs:444-711 | From every serving state, worker steps and one batch bring as many snapshots to the wire as it has chunks, numbered on from the stream's last, unless the wire's integers run out |
| PerformanceTelemetry.EveryOpenStreamCanClose | src-tauri/src/performance_telemetry.rs:386-755 | In every run, a stream open while the worker serves can still be closed on the wire |
| PerformanceTelemetry.LostStaysLost | src-tauri/src/performance_telemetry.rs:632-647 | From a state with shutdown requested, the worker running and no shutdown queued, every run keeps all three, so no shutdown close is ever attempted |
| PerformanceTelemetry.QueuedShutdownIsReached | src-tauri/src/performance_telemetry.rs:656-752 | The worker alone gets from any queued shutdown to its end |
| PerformanceTelemetry.ShutdownTakesEffectIff | src-tauri/src/performance_telemetry.rs:632-647 | From any reachable state, some continuation of the first request stops the worker exactly when the channel has room, and the request is lost for good exactly when it is full |
| PerformanceTelemetry.FirstRequestDecides | src-tauri/src/performance_telemetry.rs:632-752 | Over whole runs, the worker can ever stop exactly when the first shutdown request met a channel with room, whatever happens later |
| PerformanceTelemetry.FullChannelLosesShutdown | src-tauri/src/performance_telemetry.rs:29-29 | The concrete run: one stream with 255 unhandled batches fills the channel, and the worker runs on for ever |
| PerformanceTelemetry.SnapshotsFollow | crates/performance_telemetry/src/protocol.rs:158-181 | The parts of one batch are what a receiver expects next, one after the other |
| PerformanceTelemetry.CloseAllFollows | src-tauri/src/performance_telemetry.rs:737-752 | A shutdown gives every open stream exactly one close attempt and no other stream an event |
| PerformanceTelemetry.WireFollowsProtocol | src-tauri/src/performance_telemetry.rs:656-755 | In every run each opening of a stream is one Opened with sequence 0, then snapshots, then at most one close with nothing after it; after the shutdown no stream is left open |
| PerformanceTelemetry.SequenceNumbersCount | src-tauri/src/performance_telemetry.rs:668-705 | The k-th datagram of an opening carries sequence number k |
| PerformanceTelemetry.BatchNumbersRepeatIff | src-tauri/src/performance_telemetry.rs:682-705 | Batch numbers of an opening never decrease, and two of its batches share one exactly when the counter was saturated at the first |
| PerformanceTelemetry.SaturatedNumberRepeats | src-tauri/src/performance_telemetry.rs:682-702 | The concrete run: after 2^64 - 1 batches without a datagram the next two batches carry the same number |
| SshConfig.DivideLines | src-tauri/src/ssh_config_import.rs:333-354 | The lines are divided at the first Host line |
| SshConfig.NormalizeConfig | src-tauri/src/ssh_config_import.rs:333-380 | The rewriting loop computes the folded text |
| SshConfig.NormalizedLines | src-tauri/src/ssh_config_import.rs:333-380 | Every line that is not blank stays, comments included, in its order; one `Host *` comes in front exactly when a directive came before the first Host |
| SshConfig.NormalizedStartsWithHost | src-tauri/src/ssh_config_import.rs:333-380 | In the rewritten text no directive stands before the first Host, and a text is left alone exactly when that was so already |
| SshConfig.FoldsLeadingDirective | src-tauri/src/ssh_config_import.rs:362-379 | The concrete text: a directive in front moves under `Host *`, indented, with a blank line behind |
| SshConfig.SplitIff | src-tauri/src/ssh_config_import.rs:434-442 | A line divides into key and value exactly at the whitespace behind a first word with something behind it |
| SshConfig.NormalizeIdempotent | src-tauri/src/ssh_config_import.rs:333-380 | Folding twice is folding once |
| SshConfig.NormalizePreservesMeaning | src-tauri/src/ssh_config_import.rs:333-380 | Under the rules of ssh_config(5) every host gets the same directives in the same order, hence the same first value of every keyword, whatever `Match` blocks decide from their arguments, the host and the values obtained so far |
| SshConfigImport.CollectHost | src-tauri/src/ssh_config_import.rs:140-174 | One Host rule: its exact aliases are added without repetition, unsupported rules are counted |
| SshConfigImport.ParseOpensshConfig | src-tauri/src/ssh_config_import.rs:122-177 | The loop over lines computes the targets, the unsupported count or the error |
| SshConfigImport.TargetsAreNamedAliases | src-tauri/src/ssh_config_import.rs:122-177 | An alias is a target exactly when some supported Host rule names it, and targets are distinct |
| SshConfigImport.FailsIffMalformed | src-tauri/src/ssh_config_import.rs:126-136 | Parsing fails exactly when a significant line has no key and value |
| SshConfigImport.UnsupportedAreCounted | src-tauri/src/ssh_config_import.rs:140-167 | The unsupported count is the number of Host rules, other than a lone star, that hold anything but exact aliases, one each |
| SshConfigImport.TargetsInOrder | src-tauri/src/ssh_config_import.rs:169-173 | The targets stand in the order in which the text first mentions them |
| SshConfigImport.NormalizePreservesParsing | src-tauri/src/ssh_config_import.rs:122-177 | The rewritten text has the same targets, count or error |
| SshConfigImport.ProfileStore.ResolveJumpIds | src-tauri/src/ssh_config_import.rs:301-330 | Every profile with a jump list gets the ids of all its named profiles, or keeps what it had |
| SshConfigImport.ProfileStore.ApplyImport | src-tauri/src/ssh_config_import.rs:181-235 | The import adds, skips or refuses target by target and then resolves jump hosts; an invalid group list changes nothing |
| SshConfigImport.ImportKeeps | src-tauri/src/ssh_config_import.rs:195-230 | Added, skipped, conflicting and failed targets add up to all targets, earlier profiles stay as they are in front, and names in the import group stay unique although truncation may make aliases equal |
| SshConfigImport.OneTarget | src-tauri/src/ssh_config_import.rs:195-228 | A target fails exactly when it cannot be resolved or has an empty name, is added with its resolved values exactly when the import group has no profile of the name, and is otherwise a skip when the first such profile has the same host, port and user, else a conflict |
| SshConfigImport.ShortNameIs | src-tauri/src/ssh_config_import.rs:446-448 | The name of an imported profile is the alias, at most its first fourteen characters, trimmed |
| SshConfigImport.JumpsAreResolved | src-tauri/src/ssh_config_import.rs:301-330 | A jump list with at least one name resolves to the ids of all its profiles in order, the last of a name counting, and stays as it is when one is unknown |
| SshConfigImport.JumpNameIs | src-tauri/src/ssh_config_import.rs:314-323 | Of a jump item the lower-case host counts; user and port are cut off |
| SshConfigImport.JumpListIs | src-tauri/src/ssh_config_import.rs:309-313 | The jump items are between the commas, trimmed, empty ones left out |
| SshConfigImport.ResolveIdempotent | src-tauri/src/ssh_config_import.rs:301-330 | Resolving jump hosts twice is resolving once |
| SshConfigImport.SecondPassAddsNothing | src-tauri/src/ssh_config_import.rs:181-235 | A second pass counts every addition of the first as a skip and everything else as before |
| SshConfigImport.ImportTwice | src-tauri/src/ssh_config_import.rs:181-235 | Importing the same configuration twice adds nothing and leaves every profile, resolved jump ids included, unchanged |
| TerminalQueue.TakeLength | src/hooks/useTerminalRuntimeCore.ts:1361-1371 | As much of the string as fits, one unit less when that would cut a surrogate pair |
| TerminalQueue.TerminalBundle.TakeOutputBatch | src/hooks/useTerminalRuntimeCore.ts:1354-1381 | The loop over the queue takes the batch and subtracts its length from the counter |
| TerminalQueue.TerminalBundle.DrainOutput | src/hooks/useTerminalRuntimeCore.ts:1386-1397 | A batch is written only when no write is pending and no timer is set |
| TerminalQueue.TerminalBundle.OnWritten | src/hooks/useTerminalRuntimeCore.ts:1399-1420 | The completed write frees the terminal and sets the timer when text is queued |
| TerminalQueue.TerminalBundle.OnTimer | src/hooks/useTerminalRuntimeCore.ts:1416-1419 | The timer clears itself and drains |
| TerminalQueue.TerminalBundle.Write | src/hooks/useTerminalRuntimeCore.ts:1424-1433 | Nonempty data is queued, counted and drained |
| TerminalQueue.BatchIsFront | src/hooks/useTerminalRuntimeCore.ts:1354-1381 | Batch and remaining queue are the queued text in order; the batch fills the limit or empties the queue, one unit short only before a surrogate pair that does not fit |
| TerminalQueue.BatchCutsNoPair | src/hooks/useTerminalRuntimeCore.ts:1362-1369 | The queue continues at a queued string or inside one where no surrogate pair is separated |
| TerminalQueue.BatchKeepsPairs | src/hooks/useTerminalRuntimeCore.ts:1362-1369 | Batches of well-formed strings are well-formed UTF-16 |
| TerminalQueue.NothingLostOrReordered | src/hooks/useTerminalRuntimeCore.ts:1354-1433 | After any events, batches written and then queued text are all data in order, the counter is exact, at most one write is in flight, no batch is empty or over the limit, and queued text always has a write or a timer |
| TerminalQueue.PairsSurvive | src/hooks/useTerminalRuntimeCore.ts:1354-1433 | When all data is well-formed UTF-16, so is every batch of every run |
| TerminalQueue.NeverStalls | src/hooks/useTerminalRuntimeCore.ts:1386-1421 | The queue's own callbacks and timers bring all queued text to the terminal |
| TerminalQueue.WritesStart | src/hooks/useTerminalRuntimeCore.ts:1386-1433 | Data for an idle terminal is written at once, a busy one writes nothing more, a completed write writes nothing itself but sets the timer when text waits, and the timer writes |
| TerminalQueue.EveryRun | src/hooks/useTerminalRuntimeCore.ts:1354-1433 | For a new terminal: after any events nothing is lost or reordered, and its own callbacks bring everything enqueued to the terminal |
| TerminalQueue.DetachedBuffers.AppendSessionBuffer | src/hooks/useTerminalRuntimeCore.ts:1436-1443 | One session's buffer is extended and cut, all others stay |
| TerminalQueue.BufferIsTail | src/hooks/useTerminalRuntimeCore.ts:1436-1443 | After any chunks the buffer is the tail of all data that one cut at the end would keep |
| TerminalQueue.KeptKeepsPairsIff | src/hooks/useTerminalRuntimeCore.ts:1439-1442 | The kept tail of well-formed text is well-formed exactly when the cut does not fall inside a surrogate pair |
| TerminalQueue.KeptCutsPair | src/hooks/useTerminalRuntimeCore.ts:1439-1442 | The concrete text: a surrogate pair in front of a text one unit too long loses its first half |
| SessionInput.InputQueue.SendInput | src/hooks/useSessionStateCore.ts:563-596 | A send chains behind the stored promise of its session and replaces it |
| SessionInput.InputQueue.Finally | src/hooks/useSessionStateCore.ts:597-603 | The entry is deleted only when it is still this call's own |
| SessionInput.InvNext | src/hooks/useSessionStateCore.ts:563-603 | Every promise reaction keeps each call chained to its session's previous call, or to nothing only when all earlier calls settled |
| SessionInput.OrderHolds | src/hooks/useSessionStateCore.ts:563-603 | A call whose backend was invoked has only settled calls before it in its session |
| SessionInput.InputsKeepCallOrder | src/hooks/useSessionStateCore.ts:563-603 | In every interleaving of sends and successful or failed completions, a session's backend invocations happen in call order, each after the previous one settled |
| SessionInput.EveryRunKeepsCallOrder | src/hooks/useSessionStateCore.ts:563-603 | The same for every run from the empty queue |
| SessionInput.FirstUnsettledCanProceed | src/hooks/useSessionStateCore.ts:564-565 | The chain never blocks: a failed call does not keep later ones from starting |
| SessionInput.EveryCallSettles | src/hooks/useSessionStateCore.ts:563-595 | From every state, whichever calls succeed or fail, some run of invocations, completions and promise reactions alone settles every call |
| SessionInput.EveryRunCompletes | src/hooks/useSessionStateCore.ts:563-603 | Every run can be completed so that every call was invoked once, in call order per session, and the queue map is empty |
| SessionInput.NoEntryLeaks | src/hooks/useSessionStateCore.ts:599-602 | When all calls of a session are cleaned up its queue entry is gone |
| KnownHosts.KnownHostsFile.Trust | src-tauri/src/ssh_host_keys.rs:65-114 | The rewriting loop keeps the lines about other records and appends the new one |
| KnownHosts.KnownHostsFile.Match | src-tauri/src/ssh_host_keys.rs:116-169 | The scan judges the first line about the pattern and algorithm; an undecodable stored key is an error |
| KnownHosts.FirstLineDecides | src-tauri/src/ssh_host_keys.rs:133-162 | Of several lines about a record the first one decides |
| KnownHosts.EntryParses | src-tauri/src/ssh_host_keys.rs:56-63 | A storable entry reads back as its three fields |
| KnownHosts.TrustKeepsOtherLines | src-tauri/src/ssh_host_keys.rs:82-107 | For any host, algorithm and key, all other lines, comments and unparsable ones included, stay in place in front of the entry's lines, verbatim exactly when none ends in a carriage return |
| KnownHosts.TrustAnswers | src-tauri/src/ssh_host_keys.rs:65-114 | For any host, algorithm and key, every answer after a trust is the old one unless its record was replaced, else what the written entry itself reads as |
| KnownHosts.OtherAnswerKeptIff | src-tauri/src/ssh_host_keys.rs:65-114 | Another record's answer stays as it was exactly when it had one or the written entry does not read as one |
| KnownHosts.TrustIsMapUpdateIff | src-tauri/src/ssh_host_keys.rs:65-114 | A trust sets its own answer to the key and leaves all others, exactly when the record is storable: three words, the pattern not looking like a comment |
| Text.UnlinesOfLinesIff | src-tauri/src/ssh_host_keys.rs:91-107 | Splitting a text into lines and joining them with line feeds gives it back exactly when it is empty or ends in a line feed and has no break of carriage return and line feed |
| KnownHosts.TrustAppendsIff | src-tauri/src/ssh_host_keys.rs:82-107 | A trust that replaces no record is the old bytes and the new line exactly when the file is empty or ends in a line feed and has no break of carriage return and line feed |
| KnownHosts.TrustedIffStorable | src-tauri/src/ssh_host_keys.rs:65-169 | A key just trusted is recognised exactly when its record can be stored as words |
| KnownHosts.PatternsCollideIff | src-tauri/src/ssh_host_keys.rs:48-54 | Two host and port pairs share a pattern exactly when equal or one host spells the other's bracket form |
| KnownHosts.PlainPatternsDiffer | src-tauri/src/ssh_host_keys.rs:48-54 | For hosts without brackets the pattern determines host and port |
| KnownHosts.FileRefinesMap | src-tauri/src/ssh_host_keys.rs:65-169 | After any trusts of hosts without whitespace, brackets or a leading `#`, with whitespace-free keys and algorithms, the file answers every lookup of such a host as a map from host, port and algorithm to key does |
| KnownHosts.FileIsMap | src-tauri/src/ssh_host_keys.rs:65-169 | From the empty file, after any trusts of such hosts, match says trusted, unknown, mismatch with the fingerprint of the stored key, or that the stored key is invalid, exactly as the map does |
| KnownHosts.BlankHostStaysUnknown | src-tauri/src/ssh_host_keys.rs:56-63 | The concrete host: a name with a blank is trusted and then unknown |
| KnownHosts.BracketHostIsTrustedElsewhere | src-tauri/src/ssh_host_keys.rs:48-54 | The concrete hosts: trusting `[h]:23` at port 22 also trusts `h` at port 23 |
| KnownHosts.CommentLosesCarriageReturn | src-tauri/src/ssh_host_keys.rs:91-107 | The concrete file: a kept comment line loses the carriage return at its end |
| KnownHosts.CommentBreakChanges | src-tauri/src/ssh_host_keys.rs:91-107 | The concrete file: a line break with a carriage return is rewritten as a line feed |
| KnownHosts.MissingBreakIsAdded | src-tauri/src/ssh_host_keys.rs:104-107 | The concrete file: a last line without a line feed gets one |
| KnownHosts.BlankHostAnswersForAnother | src-tauri/src/ssh_host_keys.rs:48-63 | The concrete host: trusting `a b` makes the file answer for host `a` and algorithm `b` |
| ConfigKeyStore.KeyFile.WriteNew | src-tauri/src/config_key_store.rs:105-148 | Persisting never replaces an existing file and succeeds when one is there |
| ConfigKeyStore.KeyFile.Create | src-tauri/src/config_key_store.rs:71-103 | The result is what the file holds afterwards; an existing file is only read |
| ConfigKeyStore.DecodeInvertsEncode | src-tauri/src/config_key_store.rs:150-174 | Exactly the files written for a key with the prefix and 32 bytes decode, each to that key |
| ConfigKeyStore.AllCallersAgree | src-tauri/src/config_key_store.rs:50-148 | For any number of processes and any interleaving, all successful callers return the same key, the file's; the file never changes once present and is valid when created here |
| ConfigKeyStore.FileIsACallersKey | src-tauri/src/config_key_store.rs:71-148 | A file that comes into being holds the key that one of the callers generated |
| ConfigKeyStore.CallerFinishes | src-tauri/src/config_key_store.rs:71-103 | Whatever the others do, every caller is done after at most four accesses of its own |
| ConfigKeyStore.InvalidFileFailsAll | src-tauri/src/config_key_store.rs:50-103 | A file that starts invalid makes every caller fail and is untouched |
| ConfigKeyStore.OthersSucceed | src-tauri/src/config_key_store.rs:71-148 | Without input or output failures no caller fails |
| ConfigKeyStore.AloneIsSequential | src-tauri/src/config_key_store.rs:71-103 | A process that runs alone takes the interleaved steps to the result of the sequential method |
| SecurityInitialization.SecurityStorage.ResolveStartupKey | src-tauri/src/security_initialization.rs:80-126 | The stored key is used when it agrees with the settings and all ciphertext, one is created only when nothing refers to a key |
| SecurityInitialization.SecurityStorage.Start | src-tauri/src/security_initialization.rs:19-78 | One start performs the checks, the key creation and the settings write in order, with every error case |
| SecurityInitialization.CollectEncryptedKeyIds | src-tauri/src/security_initialization.rs:128-166 | The result is exactly the set of key ids in use, or an error exactly when some value is malformed |
| SecurityInitialization.StartSucceedsIff | src-tauri/src/security_initialization.rs:19-126 | Exactly when a start succeeds: provider known, key file readable or creatable, and unless a master password is used, every key id in use is the stored key's, and the settings name one or can be written over well-formed values |
| SecurityInitialization.StartLeaves | src-tauri/src/security_initialization.rs:19-126 | After success the key in use is stored and in embedded mode the settings name it; a failed start leaves the settings alone |
| SecurityInitialization.KeyErrors | src-tauri/src/security_initialization.rs:36-126 | A missing key is reported exactly when an id is in use and no key is stored, a mismatch exactly when an id in use is not the stored key's |
| SecurityInitialization.FreshStart | src-tauri/src/security_initialization.rs:19-78 | The concrete fresh disk: a key is created and the settings name it |
| SecurityInitialization.ActiveIdNamesStoredKey | src-tauri/src/security_initialization.rs:36-78 | After success in embedded mode a key is stored and the active id names it; settings are rewritten only when all ciphertext agrees with it |
| SecurityInitialization.KeyFileNeverChanges | src-tauri/src/security_initialization.rs:19-90 | No start changes an existing key file |
| SecurityInitialization.SecondStartIff | src-tauri/src/security_initialization.rs:19-78 | After a successful start, a second one succeeds and changes nothing exactly when the id of the stored key, or of the new key when there was no file, has no surrounding whitespace, or always with a master password |
| SecurityInitialization.PaddedIdFailsSecondStart | src-tauri/src/security_initialization.rs:36-57 | The concrete key file with which the second start fails |
| SecurityInitialization.RestartAfterCrash | src-tauri/src/security_initialization.rs:61-78 | A start that dies between creating the key and writing the settings is completed by the next one, with the same key |
| ConfigPaths.ConfigDirectoryState.constructor | src-tauri/src/config_paths.rs:279-388 | The root and its source are decided by the environment, then the file, then the default |
| ConfigPaths.ConfigDirectoryState.WriteBootstrap | src-tauri/src/config_paths.rs:206-224 | The file is replaced whole or not at all |
| ConfigPaths.ConfigDirectoryState.Select | src-tauri/src/config_paths.rs:130-163 | A usable absolute parent is saved with the application directory; a failed write changes nothing |
| ConfigPaths.ConfigDirectoryState.Reset | src-tauri/src/config_paths.rs:166-183 | The saved directory is cleared; a failed write changes nothing |
| ConfigPaths.ConfigDirectoryState.ChangeLocale | src-tauri/src/config_paths.rs:186-204 | A supported language is saved with the directory in memory |
| ConfigPaths.PendingRootIsNextStart | src-tauri/src/config_paths.rs:130-253 | Over every run, failed writes included, the pending root is None exactly when the next start has the same root and source, else the root it will have; the file reads back and the active root and source stay |
| ConfigPaths.PendingRootFromStartup | src-tauri/src/config_paths.rs:130-436 | The same from every start that could read its bootstrap file |
| ConfigPaths.NextStartUsesLastChoice | src-tauri/src/config_paths.rs:130-224 | Over every run, the next start uses the `fluxterm` directory below the parent chosen last, or the default one, and the language saved last |
| ConfigPaths.EnvironmentStart | src-tauri/src/config_paths.rs:339-360 | With the environment variable set, every start uses its directory, below the home directory when relative, and no choice of a directory is accepted |
| ConfigPaths.SyncedNext | src-tauri/src/config_paths.rs:186-253 | Saving the language never changes the saved directory |
| ConfigPaths.PredictionAfterCorruptFile | src-tauri/src/config_paths.rs:186-204 | After an unreadable file the prediction holds exactly when the environment variable is set, a directory was chosen or no language was saved |
| ConfigPaths.PredictionIff | src-tauri/src/config_paths.rs:130-436 | For every file and every run, the prediction is right exactly when the file was readable at startup or one of those conditions holds |
| ConfigPaths.SavedLocaleBreaksPrediction | src-tauri/src/config_paths.rs:186-204 | The concrete run in which the prediction fails |
| LayoutModel.SideSlotKeys | src/layout/model.ts:72-84 | The listed slots are slots of that side that exist |
| LayoutModel.SideSlotKeysComplete | src/layout/model.ts:72-84 | Every slot of the side is listed |
| LayoutModel.SideSlotKeysAscend | src/layout/model.ts:72-84 | The slots are listed in strictly ascending order |
| LayoutModel.NormalizeSlots | src/layout/model.ts:232-244 | The loop over the document's entries reads the slots, a later entry of the same slot winning |
| LayoutModel.FillSide | src/layout/model.ts:106-113 | A side gets the slots its count asks for, gaps closed and missing ones empty |
| LayoutModel.NormalizeSideSlotStructure | src/layout/model.ts:96-116 | Exactly the slots of both clamped counts and the bottom exist; each existing slot moves up by the gaps before it and keeps its widget, and the slots behind the last one are empty |
| LayoutModel.DedupeActiveWidgets | src/layout/model.ts:273-291 | The pass with a set of used widgets clears exactly the slots behind another slot with the same widget |
| LayoutModel.NormalizeFloating | src/layout/model.ts:246-271 | Inactive widgets with a valid origin float, the last entry of a widget winning |
| LayoutModel.NormalizeWidgetLayout | src/layout/model.ts:119-186 | The whole normalisation, and which documents are refused |
| LayoutModel.ReadableIff | src/layout/model.ts:119-122 | A document is refused exactly when its version is not 1 or its sizes or slots are missing or empty |
| LayoutModel.SmallestDocument | src/layout/model.ts:119-186 | The concrete smallest document gives the default sizes and one empty slot a side |
| LayoutModel.LastSlotEntryWins | src/layout/model.ts:232-244 | Of the entries that name a slot the last one decides what it shows |
| LayoutModel.LastFloatingEntryWins | src/layout/model.ts:246-271 | Of the valid entries of an inactive widget the last one decides where it floats from |
| LayoutModel.ClampIsNearest | src/layout/model.ts:304-312 | A number gives the nearest one of the range, anything else the default |
| LayoutModel.WidgetOfName | src/layout/model.ts:314-326 | A name gives the widget it is the name of; `logs` gives the events |
| LayoutModel.MoveWidgetToSlot | src/layout/model.ts:189-203 | The widget is in the target and nowhere else, every other slot keeps what it showed, a missing target is created; uniqueness is kept |
| LayoutModel.IncreaseSideSlots | src/layout/model.ts:206-218 | The new count is one more, at most ten; the slot one below it is emptied or added when that index is a whole slot index; uniqueness is kept |
| LayoutModel.CloseActiveWidgetInSlot | src/layout/model.ts:221-230 | The slot is emptied, a missing one ignored; uniqueness is kept |
| LayoutModel.ShapeIs | src/layout/model.ts:108-113 | A side has the slots 0 to n-1 where n is the count rounded up |
| LayoutModel.FirstOccurrenceKept | src/layout/model.ts:273-291 | No widget is lost: its first slot in the order left, right, bottom keeps it |
| LayoutModel.DedupedUnique | src/layout/model.ts:273-291 | No widget is active in two slots |
| LayoutModel.SlotKeyRoundTrip | src/layout/model.ts:293-302 | A slot's key parses back to the slot |
| LayoutModel.KeysOfSlot | src/layout/model.ts:293-302 | The keys of a side slot are its own and the same with zeros in front of the digit |
| LayoutModel.NormalizedIsNormal | src/layout/model.ts:119-186 | Every layout read has exactly the slots of its counts, sizes in bounds, unique widgets and floating widgets apart from active ones |
| LayoutModel.NormalReadsBack | src/layout/model.ts:119-186 | A normal layout, written in any order of its fields, reads back as itself |
| LayoutModel.NormalIffRead | src/layout/model.ts:119-186 | The normal layouts are exactly those that some document is read as |
| LayoutModel.NormalizeIdempotent | src/layout/model.ts:119-186 | What was read from any document, written and read again is unchanged |
| LayoutModel.MoveKeepsNormalIff | src/layout/model.ts:189-203 | A move keeps the layout normal exactly when the target is one of its slots and the widget does not float |
| LayoutModel.IncreaseKeepsNormalIff | src/layout/model.ts:206-218 | An increase keeps the layout normal exactly when the count is whole or above nine |
| LayoutModel.IncreaseKeepsWidgetsIff | src/layout/model.ts:206-218 | A shown widget is lost exactly when the count is between nine and ten and the last slot shows one |
| LayoutModel.FractionalCountMissesSlot | src/layout/model.ts:206-218 | The concrete layout with count 2.5, read from a document: the slot the new count asks for is missing |
| LayoutModel.FractionalCountLosesWidget | src/layout/model.ts:206-218 | The concrete layout with count 9.5, read from a document: the widget in the last slot disappears |
| LayoutModel.CloseKeepsNormal | src/layout/model.ts:221-230 | Closing any slot, a missing one included, keeps the layout normal |
| SerialLog.SerialMonitor.AppendRecord | src/hooks/useSerialMonitorState.ts:15-38 | The record gets the next number and the loop trims the session's list; empty data does nothing |
| SerialLog.SerialMonitor.ClearRecords | src/hooks/useSerialMonitorState.ts:85-87 | One session's list becomes empty |
| SerialLog.TrimmedIsLongestTail | src/hooks/useSerialMonitorState.ts:31-35 | Trimming keeps the longest tail of at most 10 MiB, or the last record alone when it exceeds that |
| SerialLog.TrimAbsorbs | src/hooks/useSerialMonitorState.ts:29-36 | Trimming early does not change what a later trim keeps |
| SerialLog.LogIsTrimOfHistory | src/hooks/useSerialMonitorState.ts:15-38 | Trimming after every record and trimming once at the end agree over every run |
| SerialLog.LogIsTrimmedHistory | src/hooks/useSerialMonitorState.ts:15-38 | In every run from the start, the log of a session is the one-shot trim of all its records since its last clear, numbered in the order of all appends |
| SerialLog.IdsAreUnique | src/hooks/useSerialMonitorState.ts:20-24 | In every run two records have the same id only when they are the same record, across all sessions |

## Left out

- HTTP CONNECT: building the request and reading the status line; longer or cut heads are only read, not judged.
- Proxy override rules around the wildcard matcher: splitting and host normalisation would only add easy members.
- Telemetry counters for sent datagrams, send failures and bytes, and the result of sending: an event is an attempt.
- Telemetry domains: the single domain's prefix and the validation of metrics are the flags `encodes` and `wellFormed`.
- Telemetry shutdown waits up to 100 ms for the worker; waiting changes no state and is not modelled.
- The worker's other end, when the last sender is dropped: the sink lives as long as the process.
- The russh-config library: the meaning preserved is that of ssh_config(5), without quoting, with host patterns compared case-sensitively.
- Group list validation and the surrounding import command that reads and writes the stores.
- Host profile fields that the import sets to constants or copies are one opaque field.
- File system errors of known_hosts, whose rewrite is not atomic: the file is one text that is read and replaced whole.
- Base64, JSON and the ciphertext format: files are their parsed content, payload headers a parameter.
- The key file disappearing between two accesses: nothing in the repository deletes it.
- Directory probing, the ready flag and its error text: the outcome of the checks is the flag `usable`.
- Terminal disposal and the bookkeeping of prompts and command capture inside the write callback.
- LayoutModel.IncreaseSideSlots: a key whose index is not a slot index is not kept in the slots, because every reader of the slots ignores it; counts are real numbers, so rounding of the sum is not modelled.
- Layout documents are JSON values as parsed, with distinct names in an object; getters and prototypes are not modelled.
- React state updates, promises, threads and channels appear as atomic steps; React's batching is not modelled.
- Remote editing, resource monitoring, session and transfer code, dialogs and themes.
