# A verified model of the agent-receipts OpenClaw plugin

The plugin watches an agent's tool calls and forwards each as a frame to a local daemon, which
signs and stores receipts. This project models its logic in Dafny and proves what that logic
guarantees:

- **The emitter** (`Emitter*.dfy`, over `src/emitter.ts`). JavaScript runs the code between two
  awaits without interruption, so every such stretch, every socket or timer callback and every
  call of `emit` and `close` is one atomic step. `EmitterMachine` is the state machine of these
  steps together with what the daemon, the kernel and the clock may do in between;
  `EmitterClass.Emitter` is the object with the source's fields, each of its methods proved to be
  one step; an object is valid if its methods, called in any order, have led to its state. The
  theorems hold in every state that any interleaving reaches, with any number of frames, sockets
  and failures, and so of every valid object.
- **The wire format** (`Framing.dfy`): length-prefixed frames and the incremental decoder of the
  peer, at the level of bytes.
- **The hooks** (`PendingMap.dfy`, `Hooks.dfy`, `HookRuns.dfy`, over `src/hooks.ts`): the map of
  pending calls, with JavaScript's iteration order, against the history of hook events.
- **Both together** (`PluginRuns.dfy`): what becomes of the two frames of one tool call.
- **The release script** (`SemVer.dfy`, `Release.dfy`, over `scripts/release.sh`): its version
  comparator against section 11 of Semantic Versioning 2.0.0, its validation, bumps and guard.
- **Query and polling** (`Query.dfy`, `Polling.dfy`, over `src/tools.ts`).
- **The taxonomy** (`Taxonomy.dfy`, over `src/classify.ts`).

`Text.dfy`, `Sorting.dfy`, `Lists.dfy` and `Wrappers.dfy` hold what several of these share.

## How to read the emitter model

`State.settled` lists how each accepted frame ended: `Acked` (a write resolved without error),
`Dropped` (counted in `dropCount`), `TooLarge` (an Error, not counted) or `Skipped` (still queued
when `close` ran; not counted). An acknowledged frame is one whose bytes the kernel has taken; a
null result of `emit` says less, as it also stands for dropped and skipped frames. What the daemon
learns is what it reads from the bytes it decodes, by any function `count` that gets back the count
put into a frame (`EmitterDaemon.Reads`). A step that is
not possible in a state leaves it unchanged, so every sequence of labels is a run and `Reachable`
needs no side condition. `settled`, `due`, `writes`, `startedAt` and `mark` are history: no
behaviour depends on them.

## Where the code and its description disagree

The model follows the code.

- **Pre-release versions end the release script.** The last command of `validate_semver` for a
  version with a pre-release part is `[[ ... ]] && die ...`, whose test has just failed, so the
  function returns 1 and `set -e` (`scripts/release.sh:15`) ends the script without a message.
  The usage text and the comments promise that such versions are accepted. `Publish` has a
  parameter `repaired` for a `validate_semver` that returns 0 instead; `set -e` stays on, as the
  guard depends on it. `Release.ExplicitVersion` says exactly what is released by the script as it
  is, and by the repaired one.
- **The daemon can be told of too many drops.** The `dropCount` comment (`src/emitter.ts:220-233`)
  promises the exact gap. Towards acknowledged frames that holds (`DropCountsAreExact`). But a
  write can time out after all its bytes have left. Whatever count its frame carried is then
  reported again, and if the retry fails too, the frame is counted as dropped although the daemon
  has it. For a daemon that receives every byte the kernel took, these are the only two ways to go
  wrong (`EmitterLosses.DaemonLearnsExactDrops`): its report then never falls short, and
  `EmitterOvercount` has a run for each way, with any frame. A daemon that dies with bytes unread
  can lose an acknowledged frame together with the count in it.
- **A peer reset can leave more than one line.** The comments at `src/emitter.ts:214-218` and
  `src/emitter.ts:574-576` promise a single debug line. That takes an 'error' event that comes
  before the failed write is handled. One that comes later, or after `close`, leaves a "conn" and a
  "write" line if the retry fails too (`EmitterLogLines.WriteLineIffNoErrorInTime` has the exact
  condition, `OneResetThreeLines` a run), and a failed re-dial leaves its own line in any case.
- **There is no fresh socket to discard.** The comment at `src/emitter.ts:405-408` says so of a
  `close` during a dial; but the connect callback has then refused the socket already
  (`EmitterOwnership.PostDialDropIsANoOp`).
- **Polling loses more than bursts.** `CHANGELOG.md:117-118` admits losses in same-millisecond
  bursts beyond `limit`. As results come newest first, any poll with more new receipts than its
  limit loses the older ones for good, and so does a receipt stored late with a timestamp at or
  below the cursor; nothing else does (`Polling.CompleteIffCovered`).
- **The script accepts less than the standard.** `SEMVER_RE` has no build metadata and no
  identifier that begins with a hyphen; the model has the script's syntax.

## Model

| member | source | states |
|---|---|---|
| EmitterClass.Emitter.constructor | src/emitter.ts:210-234 | a new emitter is open, unconnected, with nothing queued or counted |
| EmitterClass.Emitter.Emit | src/emitter.ts:257-306 | a frame is queued exactly if the emitter is open and name, decision, input and output are valid; otherwise the first mistake in the order of the checks is reported and nothing changes |
| EmitterClass.Validate | src/emitter.ts:259-284 | which error is reported, for each exactly when |
| EmitterClass.AcceptableMeaning | src/emitter.ts:262-284 | valid means: a name with a character other than white space, one of the three decisions, and JSON where there is input or output |
| EmitterClass.Emitter.Close | src/emitter.ts:316-331 | closes and forgets the connection; warns once about waiting drops; at rest the warnings are then exactly the unreported drops, and no socket is left alive unless a dial is pending |
| EmitterClass.Emitter.Dequeue | src/emitter.ts:338-346 | takes the oldest queued frame |
| EmitterClass.Emitter.DoWrite | src/emitter.ts:363-389 | is the machine's start step; the frame settles at once exactly if the emitter is closed or the bytes with the count are too large, and then in its turn, in time and without changing the count |
| EmitterClass.Emitter.Send | src/emitter.ts:370-389 | the captured count is zeroed, and restored without adding one when the frame is too large |
| EmitterClass.Emitter.AfterDial | src/emitter.ts:389-419 | is the machine's step after a dial; the frame settles exactly if the dial failed or the emitter is closed, as a drop that is counted and reported by a log line |
| EmitterClass.Emitter.AfterRedial | src/emitter.ts:461-470 | the same in the retry, which is over exactly if the dial failed or the emitter is closed |
| EmitterClass.Emitter.AfterWrite | src/emitter.ts:419-427 | is the machine's step after a write; the frame settles exactly if the write succeeded, reporting the drops since the last acknowledgement, and a failed write leaves no connection |
| EmitterClass.Emitter.AfterRewrite | src/emitter.ts:470-480 | the retry returns whether its write succeeded, and leaves no connection if not |
| EmitterClass.Emitter.AfterRetry | src/emitter.ts:427-447 | is the machine's step after the retry; the frame settles in its turn and in time, acknowledged with the drops since the last acknowledgement, or counted with a log line or warning |
| EmitterClass.Emitter.GiveUp | src/emitter.ts:435-443 | puts back the captured count plus one and warns if the emitter is closed |
| EmitterClass.Emitter.RetryWrite | src/emitter.ts:455-461 | a closed emitter does not re-dial |
| EmitterClass.Emitter.DialIfNeeded | src/emitter.ts:496-558 | re-uses the connection, or creates one connecting socket with one timer armed 500 ms ahead |
| EmitterClass.Emitter.SettleDial | src/emitter.ts:503-513 | only the first outcome of a dial counts, and disarms its timer |
| EmitterClass.Emitter.OnConnect | src/emitter.ts:523-550 | a connect callback installs its socket exactly if its dial is the pending one and the emitter open, and destroys it otherwise |
| EmitterClass.Emitter.OnDialFailure | src/emitter.ts:518-557 | a pre-connect error and the dial timer both end the pending dial, as failed, with no connection |
| EmitterClass.Emitter.WriteFrame | src/emitter.ts:582-603 | submits the body on the current connection with a deadline 100 ms ahead, or fails at once without one |
| EmitterClass.Emitter.OnWriteCallback | src/emitter.ts:598-601 | settles the write with the callback's result |
| EmitterClass.Emitter.OnWriteTimer | src/emitter.ts:594-596 | settles the write as failed, leaving the socket to its continuation |
| EmitterClass.Emitter.HandleConnError | src/emitter.ts:567-579 | clears the connection exactly for an error of that very socket; logs in any case |
| EmitterClass.Emitter.DropConn | src/emitter.ts:483-488 | destroys and forgets the connection, if any |
| EmitterClass.Emitter.LogDrop | src/emitter.ts:605-611 | adds one debug line |
| EmitterClass.Emitter.WarnUnflushed | src/emitter.ts:397-400 | adds one warning with the current count |
| EmitterClass.Emitter.KeepsPromises | src/emitter.ts:220-233 | of every valid object: a closed one has no connection; drops are conserved; the warnings are exactly the unreported drops; every settled frame reported or kept them exactly; no frame is late; every wire decodes to the first bodies submitted |
| EmitterClass.ResultMeaning | src/emitter.ts:364-387 | in every run, a queued frame comes back as an Error if and only if it was not skipped and its bytes with the drops since the last acknowledgement exceed MAX_FRAME_SIZE |
| EmitterDrops.DropCountsAreExact | src/emitter.ts:220-233 | in every interleaving each acknowledged frame carries, in its bytes, exactly the number of drops since the acknowledged frame before it |
| EmitterDrops.SinceAckMeaning | src/emitter.ts:220-224 | "drops since the last acknowledgement" is the number of dropped frames after it, wherever it is |
| EmitterDrops.DropsAreConserved | src/emitter.ts:363-448 | in every reachable state, counted drops are the reported ones plus dropCount plus the count in flight |
| EmitterDrops.Conservation | src/emitter.ts:220-233 | a history in which each acknowledgement carries the drops since the one before reports every drop once |
| EmitterDrops.UnflushedDropsWarning | src/emitter.ts:308-331 | at rest after close there is exactly one warning, with exactly the unreported drops, or none if there are none, whether close or a racing doWrite issued it; before that there is none |
| EmitterDrops.StepKeepsLedger | src/emitter.ts:363-480 | every step of every kind keeps the books of drops |
| EmitterOwnership.StepKeepsOwned | src/emitter.ts:496-579 | every step keeps: a dial is unsettled, its timer armed and its socket connecting exactly while a frame waits for it; an open socket is the connection; a closed emitter has none |
| EmitterOwnership.LiveSockets | src/emitter.ts:490-495 | closed implies unconnected; at most one socket is alive, the one being dialled or the connection; after close none once the dial has settled |
| EmitterOwnership.OnlyThePendingDialConnects | src/emitter.ts:523-550 | a connect callback changes the connection exactly if it belongs to the pending dial of an open emitter |
| EmitterOwnership.ConnectionChanges | src/emitter.ts:483-579 | the connection is installed by the pending dial alone and cleared by close, a failed write or an error of its own socket alone; late connects and stale errors do neither |
| EmitterOwnership.DialSettlesOnce | src/emitter.ts:501-513 | no step re-opens a settled dial, and a dial settles together with its frame resuming |
| EmitterOwnership.PostDialDropIsANoOp | src/emitter.ts:405-410 | in a closed emitter there is never a connection left to drop |
| EmitterOrder.SettledInOrder | src/emitter.ts:338-346 | the k-th outcome belongs to the k-th accepted frame, so acknowledgements keep the order of acceptance; only a closed emitter skips, and once it has skipped one frame it skips all later ones |
| EmitterOrder.SettlesInTime | src/emitter.ts:35-39 | every doWrite settles within 2 * 500 + 2 * 100 ms and every frame by its due time, whatever the daemon does |
| EmitterOrder.EmitDeadline | src/emitter.ts:35-39 | whatever happens after emit accepted a frame, it has settled within 1200 ms for each frame then outstanding, itself included, or that time is not over |
| EmitterOrder.StepKeepsTimely | src/emitter.ts:500-601 | every step keeps all deadlines, and no armed timer is overdue |
| EmitterOrder.StepKeepsFifo | src/emitter.ts:338-346 | settled frames, the frame in flight and the queue are together the accepted frames in order, after every step |
| EmitterTimers.DialBegins | src/emitter.ts:496-558 | for every step: a dial begins, with a timer of 500 ms, exactly when a sendable frame is taken with no connection and when a first write has failed, and never in a closed emitter |
| EmitterTimers.DialGetsItsTime | src/emitter.ts:505-557 | over every run, a dial fails only by an error of its socket or after 500 ms, and a connection made before is taken |
| EmitterTimers.PatientDialConnects | src/emitter.ts:554-557 | a daemon that accepts at any time within 500 ms is connected |
| EmitterTimers.WriteGetsItsTime | src/emitter.ts:594-601 | over every run, a write fails only by its callback or after 100 ms |
| EmitterProgress.AlwaysDrains | src/emitter.ts:338-346 | from every reachable state the emitter's own continuations and timers settle every accepted frame by its deadline, with a daemon that never reacts |
| EmitterProgress.NextDecreases | src/emitter.ts:363-480 | while a frame is outstanding the emitter always has a next step of its own, and it brings the end nearer |
| EmitterProgress.ConnectionsAreAtRisk | src/emitter.ts:561-603 | what the runs include: a connection may fail or be hung up on unnoticed at any time, any number of bytes may leave, and a write may be confirmed only once all have |
| EmitterProgress.DialsAreAtRisk | src/emitter.ts:515-557 | and: a pending dial may be answered or refused, and close may come, at any time |
| EmitterProgress.NoSilentDrop | src/emitter.ts:214-219 | every counted drop leaves a debug or warning line during its own doWrite, even with a suppress flag left over from an earlier reset |
| EmitterRecovery.NextFrameIsNotLost | src/emitter.ts:348-361 | from every reachable open state at rest, connection dead or not: if the daemon accepts the next dial and takes what is written then, the next frame of admissible size settles only as acknowledged, with all waiting drops in it |
| EmitterRecovery.NextFrameGetsThrough | src/emitter.ts:348-361 | with such a daemon there is always a run in which it does |
| EmitterLogLines.WriteLineIffNoErrorInTime | src/emitter.ts:419-444 | when a first write and its retry have failed, the first failure gets its own "write" line if and only if the flag was down when it began and no error event of its socket came while that socket was the connection |
| EmitterLogLines.RetryLineIffNoErrorInTime | src/emitter.ts:470-477 | the same condition for the "write" line of a failed retry |
| EmitterLogLines.EveryFailureHasItsLine | src/emitter.ts:389-391 | in every run there are as many "dial" lines as failed dials whose frames have resumed, and as many "conn" lines as socket errors |
| EmitterLogLines.SuppressChanges | src/emitter.ts:214-219 | for every step: suppressNextWriteLog goes up with an error of the connection, down when a failed write is looked at, and stays otherwise |
| EmitterLogLines.ErrorLine | src/emitter.ts:567-579 | an error event always leaves a "conn" line, and raises the flag exactly if its socket is the connection |
| EmitterLogLines.OneResetThreeLines | src/emitter.ts:574-576 | a run in which one reset loses one frame and leaves a "conn", a "dial" and a "write" line |
| EmitterStreams.SocketsCarryWholeFrames | src/emitter.ts:419-427 | on every socket of every run, any received prefix decodes to the first bodies submitted there, aligned; all the bytes give every acknowledged body and at most one more |
| EmitterStreams.TrafficDecodes | src/emitter.ts:582-603 | the same of one socket's traffic |
| EmitterStreams.StepKeepsStreams | src/emitter.ts:470-478 | every step keeps each wire a prefix of its encoded bodies, and writes to no socket that holds an unanswered one |
| EmitterDelivery.WritesOfSettledFrames | src/emitter.ts:419-480 | a settled frame was written at most twice, the same bytes on different sockets; it is acknowledged exactly if its last write was, and no other write of it was |
| EmitterDelivery.AcknowledgedIsOnTheWire | src/emitter.ts:598-601 | every acknowledged frame is decoded by a peer that has all the bytes the kernel took |
| EmitterAttribution.EveryBodyHasOneFrame | src/emitter.ts:363-480 | every body on every socket was written by exactly one accepted frame and is that frame's body |
| EmitterWireOrder.WiresFollowAcceptance | src/emitter.ts:419-480 | over all sockets, earlier bodies belong to earlier or the same frames in the order of acceptance: a daemon sees no frame overtake another, and repeats only next to each other, on two sockets |
| EmitterCounts.BodiesCarryTheirCounts | src/emitter.ts:370-377 | every body on every socket is that of the accepted frame that wrote it, serialised with exactly the drops since the acknowledged frame before it; the count noted for it is that number |
| EmitterDaemon.DaemonTotalExplained | src/emitter.ts:220-233 | the counts a daemon reads from the bytes it decodes add up to those of the acknowledged frames plus those of bodies that arrived whole although their write failed or timed out |
| EmitterDaemon.DaemonLearnsCountedDrops | src/emitter.ts:220-233 | at rest, the drops read and waiting are those the emitter counted if and only if no unacknowledged body that carries drops has arrived whole |
| EmitterLosses.ArrivedIsDecoded | src/emitter.ts:582-603 | a frame that arrived is decoded by the daemon with the bytes the frame settled with |
| EmitterLosses.ReportExplained | src/emitter.ts:220-233 | at rest, the drops read and waiting are the dropped frames the daemon misses, plus those it has, plus the counts of late bodies |
| EmitterLosses.DaemonLearnsExactDrops | src/emitter.ts:220-233 | the drops read and waiting are never fewer than the dropped frames the daemon misses, and equal to them if and only if no body carrying drops is late and no dropped frame arrived whole |
| EmitterOvercount.DaemonCanBeToldTooMuch | src/emitter.ts:594-596 | for any frame that fits: a reachable state at rest, nothing waiting, in which the counts the daemon has read exceed the frames the emitter counted as dropped |
| EmitterOvercount.DaemonCanBeToldOfADeliveredFrame | src/emitter.ts:594-596 | for any frame that fits: a reachable state without late counts in which the daemon has read of a drop and misses no frame |
| Framing.BigEndianRoundTrip | src/emitter.ts:590-591 | reading a big-endian number of any width gives back what was written |
| Framing.BigEndianRoundTripBack | src/emitter.test.ts:54-55 | every header is the encoding of the length it announces |
| Framing.Encode | src/emitter.ts:590-592 | a frame is four bytes longer than its body |
| Framing.HeaderBytes | src/emitter.ts:590-592 | the four length bytes, the most significant first |
| Framing.HeaderRead | src/emitter.test.ts:54 | the length read from four bytes in the same order |
| Framing.Receiver.OnData | src/emitter.test.ts:50-59 | the receiver's loop appends the decoded frames and keeps the rest |
| Framing.RestIsIncomplete | src/emitter.test.ts:53-58 | what the decoder leaves is shorter than a frame |
| Framing.DecodeIsExact | src/emitter.test.ts:53-58 | re-encoding the decoded frames and appending the rest gives the received bytes |
| Framing.RoundTrip | src/emitter.test.ts:53-58 | a stream of frames followed by anything decodes to those frames followed by the decoding of the rest |
| Framing.StreamInjective | src/emitter.ts:590-592 | two sequences of bodies never give the same stream |
| Framing.PrefixDecodes | src/emitter.test.ts:53-58 | every prefix of a stream decodes to its first frames, and the remainder is shorter than the next |
| Framing.DecodeConcat | src/emitter.test.ts:51-58 | decoding in two chunks is decoding at once |
| Framing.ChunkingIrrelevant | src/emitter.test.ts:50-59 | the frames received do not depend on how the stream was cut into chunks |
| Text.SplitMeaning | scripts/release.sh:151 | splitting gives the only list of parts without the separator that joins to the string |
| Text.LessMeaning | scripts/release.sh:160 | one string is below another exactly if their first difference is, or if it is a proper prefix |
| SemVer.ComparePre | scripts/release.sh:150-163 | the loop computes the comparison of the identifier lists |
| SemVer.Cmp | scripts/release.sh:164-173 | the chain of returns computes the comparison of the versions |
| SemVer.CompareIsPrecedence | scripts/release.sh:135-173 | on versions the parser accepts, -1, 1 and 0 are exactly lower precedence, higher precedence (section 11 of Semantic Versioning 2.0.0) and equality |
| SemVer.CompareIsTotalOrder | scripts/release.sh:164-173 | on them the comparator is antisymmetric and transitive |
| SemVer.ComparePreMeaning | scripts/release.sh:149-163 | unless the first difference is two spellings of a number, the loop decides by section 11.4 |
| SemVer.AntisymmetricUnlessClash | scripts/release.sh:150-163 | for all identifier lists, swapping the arguments negates the result if and only if the first difference is not two spellings of a number |
| SemVer.CleanNumbersDiffer | scripts/release.sh:138-146 | the leading-zero check makes distinct numeric identifiers have distinct values |
| SemVer.LeadingZeroBreaksOrder | scripts/release.sh:138-146 | two versions, one with a leading zero, each of which the comparator calls lower than the other |
| SemVer.PrecedesTransitive | scripts/release.sh:164-173 | precedence is transitive on all versions |
| Release.ScanRender | scripts/release.sh:136 | each version string has one reading, which scanning finds |
| Release.ScanSound | scripts/release.sh:136 | what scanning finds renders back to the string |
| Release.ValidateSemver | scripts/release.sh:55-68 | dies on a bad shape or a leading zero; otherwise its status is 0 without a pre-release part and 1 with one |
| Release.ValidMeaning | scripts/release.sh:55-105 | for every string: status 0 exactly for a.b.c without leading zeros, 1 exactly for a.b.c-pre with good identifiers, and death for everything else |
| Release.ParseMeaning | scripts/release.sh:135-148 | for every string: what the parser reads off it, and which of its two errors it ends with |
| Release.ParsedIsClean | scripts/release.sh:138-146 | no version the parser accepts has a numeric identifier with a leading zero |
| Release.ValidParses | scripts/release.sh:105-148 | whatever validation accepts the parser accepts, without leading zeros |
| Release.ValidInjective | scripts/release.sh:135-148 | distinct valid strings are distinct versions |
| Release.Run | scripts/release.sh:103-179 | the script as it is releases exactly what its specification says, or nothing |
| Release.GuardMeaning | scripts/release.sh:134-179 | the guard lets a version pass if and only if the parser accepts both versions and section 11 ranks it above the current one |
| Release.BumpsAlwaysPass | scripts/release.sh:113-129 | every patch, minor and major bump of a stable version passes the guard and is a stable version |
| Release.BumpMeaning | scripts/release.sh:115-124 | a bump of a stable a.b.c releases a.b.(c+1), a.(b+1).0 or (a+1).0.0, and of anything else nothing |
| Release.ExplicitVersion | scripts/release.sh:125-178 | an explicit version is released if and only if both versions are valid, it is higher, and, unless validate_semver is repaired, neither has a pre-release part |
| Release.ReleasesIncrease | scripts/release.sh:174-178 | whatever is released is valid and of higher precedence than what was there |
| Release.HistoryIncreases | scripts/release.sh:131-178 | over any sequence of script runs each version is higher than all before it |
| Release.HistoryNeverRepeats | scripts/release.sh:131-178 | no version is released twice |
| PendingMap.GetSet | src/hooks.ts:87-93 | setting a key replaces its call and no other's |
| PendingMap.SetKeepsPlaces | src/hooks.ts:87-93 | a key set again keeps its place in the map, a new one goes last, no other moves |
| PendingMap.EvictOldestMeaning | src/hooks.ts:64-72 | size eviction removes exactly the excess, and nothing that started later than a survivor, wherever the entries stand in the map |
| PendingMap.OneVictim | src/hooks.ts:64-72 | of 1001 entries it removes the first of those that started earliest |
| Hooks.KeyText | src/hooks.ts:37-39 | a key is run id, colon, call id; a missing part gives the key of "unknown" |
| Hooks.KeysCollide | src/hooks.ts:37-39 | for all calls: two share a key if and only if their parts agree once missing ones read "unknown", or a colon in one run id continues into the other's call id |
| Hooks.KeysDistinct | src/hooks.ts:37-39 | run ids without colons keep calls apart |
| Hooks.DeleteAt | src/hooks.ts:58-62 | deleting the entry an iteration is at removes that entry alone |
| Hooks.HookHandlers.EvictStalePending | src/hooks.ts:54-73 | iterating while deleting leaves exactly the young entries, then the excess by start |
| Hooks.HookHandlers.EvictExcess | src/hooks.ts:64-72 | deletes the first entries of the sorted copy |
| Hooks.HookHandlers.BeforeToolCall | src/hooks.ts:79-116 | evicts, stashes, and forwards a "pending" frame unless the parameters cannot be serialised |
| Hooks.HookHandlers.EvictPendingForSession | src/hooks.ts:121-131 | iterating while deleting leaves exactly the entries of other sessions |
| Hooks.HookHandlers.OnSessionStart | src/index.ts:140-145 | clears the stashes of the starting session and forwards nothing |
| Hooks.HookHandlers.AfterToolCall | src/hooks.ts:138-187 | consumes the stash in any case, and forwards an "allowed" frame unless its parameters or its result cannot be serialised |
| HookRuns.RunIsBounded | src/hooks.ts:34-35 | no run of hooks ever holds more than 1001 entries |
| HookRuns.StashIsLatestUnconsumed | src/hooks.ts:79-93 | over any run the stash under a key has name, parameters, start and session of the only before-call with that key not superseded, consumed or evicted since, and there is none exactly if there is no such call |
| HookRuns.AllowedFrameParams | src/hooks.ts:150-175 | an "allowed" frame has the parameters of that before-call, else its own event's |
| HookRuns.BeforeForwards | src/hooks.ts:97-104 | a before-call forwards its "pending" frame exactly if its parameters can be serialised |
| HookRuns.AfterForwards | src/hooks.ts:164-175 | after any run, an after-call forwards its "allowed" frame, with its error if it has one, exactly if the parameters it reports and its result can be serialised |
| HookRuns.CallsNeverShareAStash | src/hooks.ts:37-39 | in a run whose run ids have no colons, an "allowed" frame has the parameters of a before-call of its own call, or its own event's |
| HookRuns.OtherSessionsUntouched | src/hooks.ts:121-131 | a session start leaves the stashes of every other (key, id) pair alone |
| HookRuns.SessionStartEffect | src/index.ts:140-145 | a session start removes all stashes of its pair, a missing key read as "default", and no others |
| HookRuns.EvictionIsJustified | src/hooks.ts:54-73 | in every run, survivors are at most five minutes old and at most 1000; a young entry is evicted only if it started no later than any other young one, of which there are 1000, and all of those stay |
| PluginRuns.AllowedNeverBeforePending | src/hooks.ts:95-180 | in every run of hooks and emitter, a call's "pending" frame goes before its "allowed" frame: accepted first; settled and not skipped whenever the latter is acknowledged; all its bytes earlier on the wires; and with the same parameters while the stash lives |
| PluginRuns.HookReachesEmitter | src/hooks.ts:95-180 | after every run, a hook event hands over the frame it calls for, and the emitter queues it exactly if it is open and finds nothing wrong with the event |
| PluginRuns.RunLinked | src/hooks.ts:98-180 | after every run, the events that emit accepted are frames of the emitter, in the order in which the hooks handed them over |
| Query.Execute | src/tools.ts:67-132 | the answer, in terms of the parameters as given: the newest of the receipts that fit, newest first, as many as asked for or 20, ties in store order; unknown words, empty bounds and bounds that are no dates do not count; a store that cannot be opened is reported |
| Query.ResultsAnswer | src/tools.ts:78-132 | the same of the function the method computes |
| Sorting.SortStable | src/tools.ts:124-131 | sorting keeps the order of elements that tie |
| Lists.FilterCounts | src/tools.ts:120-122 | filtering keeps each element that passes as often as it occurs |
| Query.MatchesAreWanted | src/tools.ts:119-122 | the lower time bound is exclusive although the store's is not |
| Query.NotLaterIsTotalPreorder | src/tools.ts:125-131 | the comparator is consistent, as sort requires |
| Query.NewestFirstUpToLimit | src/tools.ts:124-132 | the result is newest first, has min(limit, matches) receipts, is a sub-multiset of the matches, and omits none that ranks before one it has |
| Polling.NothingTwice | src/tools.ts:42-46 | no sequence of polls returns a receipt twice |
| Polling.CompleteIffCovered | src/tools.ts:42-46 | over a growing store, polls have returned every selected receipt if and only if each poll's limit covered what was above the cursor and what was stored since the poll before was above it |
| Polling.OverflowLoses | CHANGELOG.md:117-118 | a poll with more above the cursor than its limit puts a receipt behind the cursor |
| Polling.LostForGood | CHANGELOG.md:117-118 | a receipt behind the cursor is never returned by a later poll |
| Polling.ZeroLimitsDropOut | src/tools.ts:94-97 | polls with limit 0 can be left out of any run |
| Taxonomy.FindMappingMeaning | src/classify.ts:79-82 | the mapping found is the first of that name |
| Taxonomy.FindPatternMeaning | src/classify.ts:86-87 | the pattern found is the first whose prefix the name begins with |
| Taxonomy.MergeContents | src/classify.ts:45-62 | the merged lists are the custom entries followed by the defaults they do not override, in order |
| Taxonomy.MergedMapping | src/classify.ts:45-54 | in a merged taxonomy the first match is the custom one, else the default one |
| Taxonomy.MergedPattern | src/classify.ts:56-62 | the same of prefix patterns |
| Taxonomy.MergeIsConcatenation | src/classify.ts:45-64 | dropping overridden defaults classifies every tool as plain concatenation would |
| Taxonomy.Precedence | src/classify.ts:78-97 | custom exact, default exact, custom prefix, default prefix, else the exact match's or the registry's "unknown" with its risk level; an exact match that resolves to "unknown" falls through to the patterns |

## Left out

- Polling.CompleteIffCovered: is about polls with a limit of at least one; a poll with limit 0 does nothing (`ZeroLimitsDropOut`), so it can be removed from a run first.
- EmitterClass.Emitter.constructor: does not model the exception without a socket path, nor the session id, as paths and ids are not modelled.
- Hooks.HookHandlers.AfterToolCall: parameters are objects, as their type says, so the fallback to the event's own concerns only a missing stash.
- Real sockets, timers and event delivery: they are steps that may happen whenever nothing in the model rules them out. Assumed of Node: timers fire on time and the event loop is not blocked, a pre-connect error destroys its socket, a write callback comes at most once and without an error only when all bytes have been handed over. A callback that comes after its write has timed out changes nothing and is no step.
- Sockets are entries of a table that the emitter updates, not heap objects; aliasing of socket objects is not captured.
- Serialisation: a frame's bytes are an arbitrary function of the frame and the drop count, which is unbounded; `JSON.stringify` failing inside `doWrite` is not modelled. Whether a text is JSON is a parameter of `Emit`.
- Timestamps, UUIDs, the session id, the socket path and the texts of errors and log lines.
- The daemon beyond decoding frames: signing, chaining and storing receipts.
- How the promise `emit` returns is delivered; `ResultMeaning` says what it resolves to.
- `@agnt-rcpt/sdk-ts` is not part of this model. Assumed: `store.query` returns every receipt with the wanted fields from `after` to `before`, both inclusive, without a row cap; `classifyToolCall` takes the first mapping of the tool and else "unknown".
- Receipt statistics, the formatting of results, and the `ar_verify_chain` tool.
- Whether a string is a date is a parameter. Strings are sequences of Unicode characters, compared one by one; JavaScript compares UTF-16 code units, which orders texts with characters beyond U+FFFF differently. Timestamps and valid versions are ASCII.
- `src/cli.ts`, `src/config.ts`, `src/daemon-store.ts` and the rest of `src/index.ts`: arguments, tables, paths and wiring.
- The contents of `taxonomy.json`; mappings and patterns are arbitrary.
- Reading and parsing the custom taxonomy file.
- The steps of the release script around the version: git, gh, npm, the changelog and the tag check. Its numbers are unbounded, where bash's are 64-bit, and its character ranges are ASCII.
- Parameters are values: changes a tool makes to a params object between the hooks are not captured.
- The log lines of the hooks, and the classification they mention.
