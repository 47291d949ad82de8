# Verified model of the SDS200 clients

The repository holds three clients for one Uniden scanner: a Go web app, an Android app in Kotlin and the
firmware of a touch panel in C. This project models, in Dafny, the parts of them whose correctness is decided
by state, interleaving or byte arithmetic, and proves what each is for.

| file | models |
|---|---|
| `AudioHub.dfy` | the Go hub that shares the scanner's single RTSP session: a step model of every interleaving with the sessions the hub knows and those the scanner has, and the hub object |
| `AudioListeners.dfy` | the hub with the program's callers: which browsers and recorders listen, and whose leaving ends the session |
| `StateCache.dfy` | the Go app's time-limited state cache with its readers, control handlers and host changes, as interleaved steps, and the App object |
| `OperatorLease.dfy` | the Go app's operator lease, granted on two paths with two boundary tests and clocks sampled before the lock |
| `RtspClient.dfy` | the request sequence of the Android RTSP client, and the Go client's `Start` |
| `RtspFraming.dfy`, `Numerals.dfy` | RTSP response framing in both clients |
| `ReplyAssembler.dfy`, `UdpCommand.dfy`, `XmlText.dfy`, `Patterns.dfy`, `FragmentText.dfy`, `XmlReply.dfy`, `LineReply.dfy` | reassembly of one reply from datagrams, in Kotlin and in Go, from the text of a datagram on: fragments, documents, single lines |
| `Rtp.dfy`, `PacketLoss.dfy` | RTP parsing in all three clients; the panel's receive path and loss count |
| `JitterBuffer.dfy`, `PlaybackRing.dfy`, `Rings.dfy`, `Ulaw.dfy`, `Upsampler.dfy` | the two ring buffers, the panel's mu-law decoder and its 2x upsampler |
| `StsDisplay.dfy`, `XmlAttribute.dfy` | display frames in all three clients; the panel's decoding of XML attribute values |
| `Runs.dfy`, `Options.dfy`, `Text.dfy` | runs of a step function with inductive invariants; options; strings |

Where the source updates an object or a buffer in place, the model is a class or an array method whose contract
equates the new state with a specification function of the old one; the properties of whole runs are then lemmas
about those functions. Concurrency is a transition system: a step is what a call does between two lock
operations, and a run is any sequence of steps of any number of calls. The network, the scanner and the clock
appear as the answers and times a step receives, so every result is for all of them. `dafny verify
dfyconfig.toml` checks everything.

## What the proofs found

Where the code does not do what its documentation, comments or the obvious reading promise, the model keeps the
code, a lemma gives an input or a run that shows it, and the exact condition is proved.

- README.md:20 promises TEARDOWN when the last listener leaves. A browser that closes its page or loses its connection
  only drops its subscription (audio.go:744-746), and one whose stop is refused because another client holds the lease
  has stopped playing all the same (handlers.go:906-909, static/app.js:170-171): its name stays an owner, and the session
  goes on with nobody listening: `SessionOutlivesLastListener`. From any reachable state, whoever listens, it ends if
  and only if a ForceStop takes effect, or a Release while nobody is held under the other of the program's two names,
  "web" for every browser and "record" for the recorder: `SessionEndsIff`. The last listener's own Release ends it
  unless it is the recorder's and a browser that has gone is still held: `LastReleaseEndsIffNoneGone`.
- The browsers share one name, so the session is taken from a browser when another one stops:
  `OneBrowserEndsItForBoth`; a Release takes it from others exactly when all who are held have the name released:
  `TakenFromOthersIffSameName`. (The hub by itself would also keep the name of an Acquire that failed before its socket
  was bound, audio.go:413-435, if Acquire were called with a second name: `StaleNameOutlivesLastListener`; in the program
  the owners are exactly the names of those held: `OwnersAreHeld`.)
- `AcquireExisting` takes `mu` only, so between an owner's removal and the end of the stop (audio.go:621-651) a
  recorder can be let in to a session that is about to end: `SharedWhileStopping`. What it was granted can end without
  its own release exactly when a stop was already decided: `GrantedSessionEndsIffStopDecided`; and then it does end:
  `StopIsFinal`.
- README.md:20 says that the scanner serves one session and that a leaked one makes it refuse connections. The hub and
  both clients forget a session whose SETUP was executed and whose reply was lost or refused, and one whose TEARDOWN was
  lost (audio.go:239-250, audio.go:653-657). Then nobody gets the audio again: `LostReplyLocksOut`; from an idle hub some
  continuation gives it to a caller if and only if nothing was left behind: `PlaysAgainIffNothingLeaked`. The scanner's
  sessions are always the hub's and those left behind: `ScannerHoldsHubsAndLeaked`, `OneAtScanner`; for one client,
  `OpenedSessionTornIffReplyKept`, `LostReplyLeaves`.
- `setHost` changes the host before it saves and returns early when saving fails (main.go:187-195): the old
  host's snapshot is then still served: `OldHostServedIffSaveFailed`.
- Not every control handler invalidates the cache: FQK, SVC, DTM, AST and APR writes (handlers.go:674-679, :845-850,
  :873-878, :1328-1333, :1370-1375) and the waterfall's JPM (waterfall.go:35) do not, and the snapshot from before them is
  served after they were acknowledged: `KeptWriteServesOld`. One that does invalidate skips it when a write fails, also
  when an earlier key of a sequence was acknowledged (handlers.go:373-381): `SecondKeyLostServesOld`, or a write was
  executed and its reply lost: `LostAckServesOldIffItLasts` (the defaults, 800 ms of cache against 1250 ms for a reply,
  hide the last). `OldStateServedIff` says exactly when the old snapshot is served as a handler returns.
- Both lease paths write `now + TTL` with a clock sampled before the lock, so a slower earlier sample shortens a
  lease already promised: `PromiseBroken`. From any reachable state a promise can still be cut if and only if an older
  sample of the holder rules, or waits to, and the clock or a waiting request of another client is still within the gap
  this leaves: `PromiseCutIffOvertaken`.
- protocol.go:125-128 says a lone marker must never be returned; the timeout branch (protocol.go:85-87) returns
  it: `GoReturnsLoneMarker`. Over any datagrams it does so if and only if the fragments never make a document, one line
  is the marker and all others are blank: `LoneMarkerReturnedIff`. The Android assembler never does:
  `LoneMarkerNeverReturned`.
- Go merges a stretch of fragments that reaches the last one even if it does not start at 1, so it can finish
  early with the tail of a document: `GoFinishesEarly`, `GoReturnsTail`; the two programs answer a fragment alike
  exactly when it does not: `DocumentAnsweredAlikeIff`. An empty fragment is replaced by its whole XML:
  `CompleteIffNothingEmpty`, `EmptyFragmentRepeats`.
- A plain reply with text in the form of a tag, which the display may show (ReplyAssembler.kt:56-59), looks like XML to
  Go, which then waits for its timeout; Android answers it at once: `TagKeepsGoWaiting`. The programs answer a plain
  reply alike exactly when there is no tag in it, or it parses from there: `PlainReplyAnsweredAlikeIff`.
- A document whose root closes itself is complete for Android only if the root's name ends in a word character, since
  the pattern asks for the end of a word behind it (XmlText.kt:57): `SelfClosedCompleteIff`.
- A second `start` on an open Android client forgets the first session without TEARDOWN: `SecondStartOverwrites`,
  `AllTornDownIffNoneOverwritten`. This concerns the class; the app starts each client once (AudioSession.kt:69, :81).
- The panel's `lost` counts late packets as lost: `SwapCountsTwo`; it is exact in order, and never too small.
- A body length that does not fit 32 bits is an error for Go and an absent body for the Android client:
  `LengthBeyondInt`. A length with a separator (0x1c to 0x1f) behind it is no number for Go and one for Kotlin, whose
  `trim` takes separators: `SeparatedLength`. `KotlinReadsWhatGoReads` and `GoReadsAreKotlinReads` say exactly when the
  two agree, by a condition on the bytes of the header lines: `SameTablesIffAlike`.
- The panel accepts RTP datagrams that Go refuses, exactly when the extension header is cut off or the padding
  count is zero: `GoAcceptsWhatPanelTakes`, `PanelTakesMore`.
- `JitterBuffer` with a prebuffer above its limit is silent for ever: `PlaysIffPrebufferFits`.

## Model

| member | source | states |
|---|---|---|
| `AudioHub.HolderStep` | audio.go:393-493 | the call that holds `startMu` is never blocked, and each of its steps leaves flags, client, owners and sessions as its next place requires, for either answer of the network |
| `AudioHub.OutsiderKeepsInv` | audio.go:606-615 | calls that do not hold `startMu`, `AcquireExisting` among them, keep that true between any two steps of the holder |
| `AudioHub.ReachableInv` | audio.go:393-689 | the hub invariant holds in every state of every interleaving |
| `AudioHub.QuietWhenUnlocked` | audio.go:393-493 | whenever `startMu` is free: not starting; running exactly when a client with an un-torn-down session is held; running only with an owner |
| `AudioHub.AtMostOneSession` | audio.go:320-346 | at any moment of any run the hub holds at most one RTSP session: one whose SETUP reply it has had and for which it has not yet tried TEARDOWN |
| `AudioHub.ScannerHoldsHubsAndLeaked` | audio.go:239-250 | in every run the scanner's sessions are that one and exactly those left behind by a lost or refused SETUP reply or a lost TEARDOWN |
| `AudioHub.OneAtScanner` | audio.go:653-657 | the scanner never has two; while the hub runs, nothing was left behind and the scanner has just the hub's; idle, it has what was left behind |
| `AudioHub.PlaysAgainIffNothingLeaked` | audio.go:393-493 | from every reachable idle state some continuation gives a caller the audio if and only if nothing was left behind |
| `AudioHub.LostReplyLocksOut` | audio.go:239-243 | a run in which a lost SETUP reply leaves an idle hub that in no continuation gives anybody the audio |
| `AudioHub.NeverConflict` | audio.go:404-407 | the "start already in progress" answer is unreachable |
| `AudioHub.ReleaseStopsOnlyAfterLastOwner` | audio.go:617-628 | a Release stops a running session exactly when it removes the last owner; a non-owner's Release changes nothing |
| `AudioHub.StopEndsTheSession` | audio.go:637-689 | when a stop reaches its last section the hub holds no session and is idle, whatever ran in between |
| `AudioHub.StopIsFinal` | audio.go:637-689 | in every continuation of a decided stop, the session it found is gone from the hub when its call has returned, AcquireExisting or not |
| `AudioHub.AcquireUndisturbed` | audio.go:393-493 | Acquire alone is a run of the step model and ends with the hub and answer of the sequential Acquire |
| `AudioHub.ReleaseUndisturbed` | audio.go:617-628 | the same for Release; the session is gone exactly when the hub stopped running |
| `AudioHub.StopUndisturbed` | audio.go:637-689 | the same for stopSession: no session afterwards |
| `AudioHub.ForceStopUndisturbed` | audio.go:629-636 | the same for ForceStop: idle hub, no owners, no session |
| `AudioHub.ExistingIsAtomic` | audio.go:606-615 | at any point of any run AcquireExisting is granted exactly by the hub's fields at that point, and touches neither lock nor session |
| `AudioHub.ExistingGrantedIffPacketCame` | audio.go:609 | in every run an AcquireExisting is granted if and only if the hub runs and a packet has been counted since the Acquire that opened the running session took its first section |
| `AudioHub.AudioHub.SetFailure` | audio.go:379-392 | clears both flags and no other modelled field |
| `AudioHub.AudioHub.Acquire` | audio.go:393-493 | the hub and answer of the sequential Acquire; from an idle hub, running exactly on success, and which owner name stays after each failure |
| `AudioHub.AudioHub.AcquireExisting` | audio.go:606-615 | granted if and only if the hub runs and has counted a packet; then the owner joins, else the owners stay, and no other field changes |
| `AudioHub.AudioHub.Release` | audio.go:617-628 | removes the owner and stops the session with the last one |
| `AudioHub.AudioHub.ForceStop` | audio.go:629-636 | forgets all owners and stops |
| `AudioHub.AudioHub.StopSession` | audio.go:637-689 | idle hubs are left alone, others lose both flags and their client |
| `AudioHub.StaleNameOutlivesLastListener` | audio.go:418-435 | a run of the hub with two Acquire names in which a failed Acquire keeps the session open after the last listener has gone; the program has one such name |
| `AudioHub.SharedWhileStopping` | audio.go:606-615 | a run in which AcquireExisting succeeds on a session whose stop has already been decided |
| `AudioHub.GrantedSessionEndsIffStopDecided` | audio.go:606-628 | in every reachable state in which AcquireExisting is granted: some continuation without a release of its name or ForceStop ends the session if and only if `startMu` is held by a call that has decided to stop |
| `AudioListeners.OwnersAreHeld` | handlers.go:895-910 | whenever `startMu` is free, the owner names are exactly those of the browsers and recorders who were let in and not released; none is stale |
| `AudioListeners.ReleaseEndsIffOtherNameFree` | audio.go:617-628 | a Release taking effect decides to stop if and only if nobody is held under the other name |
| `AudioListeners.LastReleaseEndsIffNoneGone` | audio.go:617-628 | the Release made for the only listener left ends the session if and only if it is not the recorder's with a browser that has gone still held |
| `AudioListeners.SessionEndsIff` | audio.go:617-689 | over any run from any reachable running state, disconnects and refused stops included, the session ends if and only if a ForceStop takes effect or a Release while nobody is held under the other name |
| `AudioListeners.SessionOutlivesLastListener` | audio.go:744-746 | a run in which the only listener disconnects and the session goes on |
| `AudioListeners.TakenFromOthersIffSameName` | handlers.go:910 | a Release takes the session from another listener if and only if everyone held has the name released |
| `AudioListeners.OneBrowserEndsItForBoth` | handlers.go:895-910 | a run in which one of two browsers stops and the session is over for both |
| `StateCache.StepKeepsInv` | main.go:253-292 | every step of readers, writers and host changes keeps the cache and every reader in progress no older than what is complete |
| `StateCache.ReachableGood` | main.go:185-292 | in every interleaving no snapshot handed out is stale, and every host setting is accounted for |
| `StateCache.NoSnapshotOlderThanCompletedWrite` | handlers.go:139-144 | after a handler has written and `invalidateState` has returned, no later readState returns a snapshot exchanged before the write |
| `StateCache.NoSnapshotOfReplacedHost` | main.go:185-202 | after `setHost` has returned, no snapshot named after or fetched from an earlier host is returned |
| `StateCache.OneExchangeAtATime` | main.go:204-223 | at most one exchange of `App.command` is in flight at any moment |
| `StateCache.ForcedReadAsksAnew` | main.go:257-291 | in every interleaving, what a forced read returns was asked of the scanner after it took `stateMu`: it shows every write executed and every host set by then |
| `StateCache.NoSnapshotWithoutHost` | main.go:260-262 | every snapshot returned was named after, and fetched from, a host setting that is not empty |
| `StateCache.SettledCacheIsCurrent` | main.go:185-202 | with no host change pending or failed, a valid entry belongs to the current host in name and in substance |
| `StateCache.App.ReadState` | main.go:253-292 | a forced read asks the scanner whatever is cached, an unforced one takes an entry younger than `ttl`; an answer is stored with the later clock and returned, a failed exchange stores nothing |
| `StateCache.App.InvalidateState` | handlers.go:278 | the entry is no longer valid |
| `StateCache.App.SetHost` | main.go:185-202 | host changes at once; the cache is emptied only if the configuration was saved |
| `StateCache.App.Control` | handlers.go:373-381 | a handler writes until a write is not acknowledged, and invalidates exactly when all were and it has an invalidation |
| `StateCache.ReadHit` | main.go:257-259 | an undisturbed reader with a valid entry returns that entry |
| `StateCache.ReadMiss` | main.go:260-291 | an undisturbed reader without a hit stores and returns exactly what the scanner answered, and without an answer leaves the cache alone |
| `StateCache.OldHostServedIffSaveFailed` | main.go:193-199 | after a host change the old entry is valid if and only if saving failed |
| `StateCache.OldStateServedIff` | handlers.go:443-452 | for a handler of any number of writes that only time disturbs: the old entry is served at its return if and only if it is still young enough then, and the handler does not invalidate or a write was not acknowledged |
| `StateCache.KeptWriteServesOld` | handlers.go:674-679 | an acknowledged write after which the entry from before it is served |
| `StateCache.SecondKeyLostServesOld` | handlers.go:373-381 | a sequence of two keys, the second lost: the entry from before the first is served |
| `StateCache.LostAckServesOldIffItLasts` | handlers.go:139-144 | a write executed without its reply: the old entry is served after the timeout if and only if it lasts longer |
| `OperatorLease.PathsDifferOnlyAtExpiry` | main.go:313-318 | the two paths' tests differ only for another client at exactly the expiry time |
| `OperatorLease.DecisionLawful` | handlers.go:80-93 | each decision of either path is lawful with respect to the history of decisions |
| `OperatorLease.ReachableInv` | main.go:301-323 | the lease fields always follow from that history, in every interleaving with clocks sampled early |
| `OperatorLease.GrantsRespectTheHolder` | main.go:301-323 | over whole runs, a client other than the holder is granted control only with a time at or past the last granted expiry, or with no holder left |
| `OperatorLease.RefusedOnlyWhileHeld` | handlers.go:83-86 | a client is refused only while another holds the lease at its sampled time |
| `OperatorLease.EveryPromiseKept` | handlers.go:80-93 | when grants reach the lock in sample order, no other client is granted control before the promised time without a release |
| `OperatorLease.PromiseCutIffOvertaken` | handlers.go:80-93 | from every reachable state, some continuation grants another client the holder's lease before a promised time, without a release, if and only if an older sample of the holder rules or waits to rule, and the clock or a waiting sample of another client is within the gap this leaves, by that path's test |
| `OperatorLease.PromiseBroken` | main.go:310-321 | a run in which a lease is granted away before its promised time |
| `OperatorLease.App.RequireControl` | main.go:301-323 | who holds the lease afterwards and until when, by the `After` test |
| `OperatorLease.App.LeaseAcquire` | handlers.go:60-94 | the same by the `Before` test, with the short-id refusal |
| `OperatorLease.App.LeaseRelease` | handlers.go:95-117 | only the owner's release clears the lease |
| `RtspClient.Client.Request` | android/app/src/main/java/uk/co/twoe0lxy/sds200/audio/RtspClient.kt:59-75 | one numbered request is sent if connected; there is a result if and only if the reply to that number came with status 200 and no other CSeq |
| `RtspClient.Client.Start` | android/app/src/main/java/uk/co/twoe0lxy/sds200/audio/RtspClient.kt:113-133 | the client after a start, for every server and every point of failure |
| `RtspClient.Client.GetParameter` | android/app/src/main/java/uk/co/twoe0lxy/sds200/audio/RtspClient.kt:135-139 | a keepalive is sent exactly with a session and a connection, and succeeds exactly with status 200 and no other CSeq |
| `RtspClient.Client.Close` | android/app/src/main/java/uk/co/twoe0lxy/sds200/audio/RtspClient.kt:142-157 | TEARDOWN for an open session, then nothing is left |
| `RtspClient.GoClientAgrees` | audio.go:208-260 | the Go client's Start sends the same requests and ends in the same state |
| `RtspClient.TraceShape` | android/app/src/main/java/uk/co/twoe0lxy/sds200/audio/RtspClient.kt:113-157 | for every server, one start and any later keepalives and closes, a fresh client's requests are a prefix of OPTIONS, DESCRIBE, SETUP, PLAY, then keepalives, then at most one TEARDOWN |
| `RtspClient.HandshakeFollowsReplies` | android/app/src/main/java/uk/co/twoe0lxy/sds200/audio/RtspClient.kt:113-133 | for every server, each request of the handshake is sent if and only if all replies before it have status 200 and no other CSeq, and DESCRIBE and SETUP what is read from them; the start succeeds if and only if all four do |
| `RtspClient.RequestsNameTheirSession` | android/app/src/main/java/uk/co/twoe0lxy/sds200/audio/RtspClient.kt:119-148 | over any calls, PLAY, GET_PARAMETER and TEARDOWN name the session of the last SETUP that gave one and was not torn down, and no other request names any |
| `RtspClient.ClosedOnce` | android/app/src/main/java/uk/co/twoe0lxy/sds200/audio/RtspClient.kt:142-157 | once closed, TEARDOWN was attempted exactly once if a Session id was learned, else never; closing again adds nothing |
| `RtspClient.OpenedSessionTornIffReplyKept` | android/app/src/main/java/uk/co/twoe0lxy/sds200/audio/RtspClient.kt:63-74 | a session the scanner opened for a client that is started once and closed is gone from the scanner if and only if its SETUP reply came and was not refused, and the TEARDOWN was executed |
| `RtspClient.LostReplyLeaves` | android/app/src/main/java/uk/co/twoe0lxy/sds200/audio/RtspClient.kt:72-74 | a SETUP executed whose reply is lost leaves its session at the scanner after the close |
| `RtspClient.Ledger` | android/app/src/main/java/uk/co/twoe0lxy/sds200/audio/RtspClient.kt:113-157 | over any calls, sessions opened are those torn down, the one held, and the ones overwritten |
| `RtspClient.AllTornDownIffNoneOverwritten` | android/app/src/main/java/uk/co/twoe0lxy/sds200/audio/RtspClient.kt:122-132 | a closed client has torn down every session it was given, in order, if and only if no start overwrote one |
| `RtspClient.SecondStartOverwrites` | android/app/src/main/java/uk/co/twoe0lxy/sds200/audio/RtspClient.kt:125 | two starts of one client object on an accepting server leave the first session behind |
| `RtspFraming.Reader.ReadString` | audio.go:129-132 | consumes exactly through the next line feed, or everything in vain |
| `RtspFraming.Reader.ReadFields` | audio.go:146-161 | parses header lines as they come, the last of equal names counting |
| `RtspFraming.Reader.ReadResponse` | audio.go:125-176 | the response at the front of the stream is returned and exactly its bytes are consumed, or there is an error |
| `RtspFraming.AndroidReader.ReadLine` | android/app/src/main/java/uk/co/twoe0lxy/sds200/audio/RtspClient.kt:77-87 | a line of at most 8192 bytes, without its ending |
| `RtspFraming.AndroidReader.ReadHeaderLines` | android/app/src/main/java/uk/co/twoe0lxy/sds200/audio/RtspClient.kt:91-97 | at most 100 lines up to an empty one |
| `RtspFraming.AndroidReader.ParseHeaders` | android/app/src/main/java/uk/co/twoe0lxy/sds200/protocol/Media.kt:106-111 | the header table, or an error if a line has no colon |
| `RtspFraming.AndroidReader.ReadBody` | android/app/src/main/java/uk/co/twoe0lxy/sds200/audio/RtspClient.kt:101-108 | the announced number of bytes, however the stream cuts them up |
| `RtspFraming.AndroidReader.ReadResponse` | android/app/src/main/java/uk/co/twoe0lxy/sds200/audio/RtspClient.kt:89-110 | the same for the Android client, with its limits |
| `RtspFraming.ResponseReadBack` | audio.go:125-176 | any printed response, of any headers and a body up to 4 MiB, is read back whole and nothing after it is touched, with either client's trims and number ranges |
| `RtspFraming.BackToBack` | audio.go:125-176 | any list of responses printed back to back is read back in turn, each taking exactly its bytes: by Go always, by the Android client if and only if each is within its limits |
| `RtspFraming.LastHeaderCounts` | audio.go:160 | a header is found under its lower-cased, trimmed name unless a later one has the same |
| `RtspFraming.CodeIs` | audio.go:134-145 | a status line is taken if and only if it begins with the protocol and a blank, and then it is code and reason put together again |
| `RtspFraming.OtherProtocolRefused` | android/app/src/main/java/uk/co/twoe0lxy/sds200/protocol/Media.kt:102-104 | neither client reads a response with any other status line |
| `RtspFraming.RangesEnd` | audio.go:138-141 | where Atoi and toIntOrNull end, on printed numbers of either sign |
| `RtspFraming.LongBodyRefused` | audio.go:162-168 | a body above 4 MiB, announced as it should be, is refused with either language's trims and ranges |
| `RtspFraming.KotlinReadsWhatGoReads` | android/app/src/main/java/uk/co/twoe0lxy/sds200/audio/RtspClient.kt:89-110 | on every stream, what the Android client reads is within its limits, and is what Go reads if and only if the header lines are alike and the body length fits 32 bits |
| `RtspFraming.GoReadsAreKotlinReads` | audio.go:125-176 | on every stream, the Android client reads what Go reads if and only if that is within its limits, the status fits 32 bits and the header lines are alike |
| `RtspFraming.SameTablesIffAlike` | android/app/src/main/java/uk/co/twoe0lxy/sds200/protocol/Media.kt:106-111 | both clients make the same table of the header lines, or none, if and only if no name, and no value without a later line of its name, begins or ends in a character that only Kotlin trims |
| `Text.TrimsAgreeIff` | android/app/src/main/java/uk/co/twoe0lxy/sds200/protocol/Media.kt:110 | Go and Kotlin trim a text alike if and only if what Go leaves has no separator or no-break space at its ends |
| `Text.SpacesAre` | android/app/src/main/java/uk/co/twoe0lxy/sds200/protocol/XmlText.kt:65 | the characters that Go's and Kotlin's trims drop, one by one |
| `Text.CasesAre` | protocol.go:28 | the letters have two cases, and no other character has |
| `RtspFraming.LengthBeyondInt` | audio.go:164-169 | a response with body length 2147483648: an error for Go, no body for the Android client |
| `RtspFraming.SeparatedLength` | android/app/src/main/java/uk/co/twoe0lxy/sds200/audio/RtspClient.kt:100 | a response whose body length ends in 0x1f: Go leaves the body in the stream, the Android client reads it |
| `RtspFraming.AndroidReadsBackIffCompact` | android/app/src/main/java/uk/co/twoe0lxy/sds200/audio/RtspClient.kt:77-110 | a printed response is read back by the Android client if and only if its lines and their number are within the limits, and refused otherwise |
| `RtspFraming.KotlinReadIs` | android/app/src/main/java/uk/co/twoe0lxy/sds200/protocol/Media.kt:102-113 | collecting the header lines and parsing them afterwards gives, on every stream within the limits, what parsing them as they come gives, and elsewhere an error |
| `Numerals.NumberOfDecimal` | audio.go:138 | parsing undoes printing of numbers |
| `Numerals.NumberOfSigned` | audio.go:164 | a sign in front is honoured, any other character refused |
| `ReplyAssembler.Assembler.Offer` | android/app/src/main/java/uk/co/twoe0lxy/sds200/protocol/ReplyAssembler.kt:23-54 | answer and new state for every datagram text |
| `ReplyAssembler.Assembler.KeepFragment` | android/app/src/main/java/uk/co/twoe0lxy/sds200/protocol/ReplyAssembler.kt:27-36 | how a numbered fragment is filed |
| `ReplyAssembler.Assembler.OfferLines` | android/app/src/main/java/uk/co/twoe0lxy/sds200/protocol/ReplyAssembler.kt:39-53 | how plain lines are gathered and which line answers |
| `ReplyAssembler.Assembler.OnTimeout` | android/app/src/main/java/uk/co/twoe0lxy/sds200/protocol/ReplyAssembler.kt:64-81 | what is returned when the socket times out |
| `ReplyAssembler.Assembler.MergeNow` | android/app/src/main/java/uk/co/twoe0lxy/sds200/protocol/ReplyAssembler.kt:83-92 | the merge, by its two loops |
| `ReplyAssembler.MergedStretch` | android/app/src/main/java/uk/co/twoe0lxy/sds200/protocol/ReplyAssembler.kt:83-92 | for any delivery order with repetitions, a merge is possible exactly when everything from the least number seen to the last fragment is there, and gives that stretch in number order |
| `ReplyAssembler.OrderIndependence` | android/app/src/main/java/uk/co/twoe0lxy/sds200/protocol/ReplyAssembler.kt:23-37 | numbered from 1 with nothing empty: no answer until every number has been seen, then exactly root-open, the inner texts in order, root-close |
| `ReplyAssembler.CompleteIffNothingEmpty` | android/app/src/main/java/uk/co/twoe0lxy/sds200/protocol/ReplyAssembler.kt:36 | once all have arrived the document is right if and only if no fragment was empty |
| `ReplyAssembler.EmptyFragmentRepeats` | android/app/src/main/java/uk/co/twoe0lxy/sds200/protocol/ReplyAssembler.kt:36 | the document made of one empty fragment repeats its whole XML |
| `ReplyAssembler.NumberedFromZero` | android/app/src/main/java/uk/co/twoe0lxy/sds200/protocol/ReplyAssembler.kt:85-86 | numbered from 0 a merge happens without fragment 0, and is right if and only if it has arrived |
| `ReplyAssembler.GoFinishesEarly` | protocol.go:199-215 | Go finishes at any stretch that reaches the last fragment, with the whole document if and only if it starts at 1 |
| `ReplyAssembler.GoReturnsTail` | protocol.go:199-215 | the second of two fragments arriving first is all that Go returns |
| `ReplyAssembler.SameAnswersWhenFirstArrivesFirst` | protocol.go:95-116 | if fragment 1 arrives first, both complete at the same datagram with the same document |
| `ReplyAssembler.TimeoutGivesWhatArrived` | android/app/src/main/java/uk/co/twoe0lxy/sds200/protocol/ReplyAssembler.kt:64-73 | whatever fragments of a document came, in any order and with repetitions, `onTimeout` returns the root with exactly those in it, in number order; Go's timeout only what merges |
| `ReplyAssembler.TimeoutReturnsAnswer` | android/app/src/main/java/uk/co/twoe0lxy/sds200/protocol/ReplyAssembler.kt:64-66 | what a fragment completed is also what a timeout would return |
| `ReplyAssembler.RootOfFirst` | android/app/src/main/java/uk/co/twoe0lxy/sds200/protocol/ReplyAssembler.kt:32-35 | the root is that of the first fragment that has one, over any fragments |
| `ReplyAssembler.PieceOfLast` | android/app/src/main/java/uk/co/twoe0lxy/sds200/protocol/ReplyAssembler.kt:36 | of fragments with the same number the last counts |
| `ReplyAssembler.EveryReplyJustified` | android/app/src/main/java/uk/co/twoe0lxy/sds200/protocol/ReplyAssembler.kt:39-53 | any answer of `offer` is an error reply, a non-XML reply whose last line answers the command, a structurally complete document, or a full merge |
| `ReplyAssembler.LoneMarkerNeverReturned` | android/app/src/main/java/uk/co/twoe0lxy/sds200/protocol/ReplyAssembler.kt:74-79 | over any datagrams, for any command without '<', neither `offer` nor `onTimeout` ever returns a lone marker |
| `ReplyAssembler.MarkerIsIncomplete` | android/app/src/main/java/uk/co/twoe0lxy/sds200/protocol/XmlText.kt:53-60 | a marker alone is never a complete document |
| `FragmentText.ScannerFooter` | android/app/src/main/java/uk/co/twoe0lxy/sds200/protocol/XmlText.kt:11-14 | for every number, the footer tag as the scanner writes it is matched, and its number and EOT mark are read back |
| `FragmentText.TagSpans` | android/app/src/main/java/uk/co/twoe0lxy/sds200/protocol/XmlText.kt:11-14 | a footer tag anywhere in any text is found there and read the same |
| `FragmentText.FooterStripped` | android/app/src/main/java/uk/co/twoe0lxy/sds200/protocol/XmlText.kt:55 | removing footers removes exactly that tag and nothing around it |
| `FragmentText.XmlFound` | android/app/src/main/java/uk/co/twoe0lxy/sds200/protocol/XmlText.kt:18-26 | the XML of a fragment starts at its declaration, whatever marker is in front |
| `FragmentText.PrintedParts` | android/app/src/main/java/uk/co/twoe0lxy/sds200/protocol/XmlText.kt:64-76 | the parts of a fragment are its root's tags and exactly what they enclose, without the footer |
| `FragmentText.CompleteIffClosed` | android/app/src/main/java/uk/co/twoe0lxy/sds200/protocol/XmlText.kt:53-60 | a reply that has begun with its root's opening tag is complete if and only if the closing tag has come |
| `Patterns.SelfClosedCompleteIff` | android/app/src/main/java/uk/co/twoe0lxy/sds200/protocol/XmlText.kt:53-60 | a document whose root closes itself is complete if and only if only blanks follow and the root's name ends in a word character |
| `Patterns.FooterIffPattern` | android/app/src/main/java/uk/co/twoe0lxy/sds200/protocol/XmlText.kt:11-14 | the search for a footer accepts exactly the texts that its pattern matches, names in any case |
| `Patterns.GroupsAreLatest` | android/app/src/main/java/uk/co/twoe0lxy/sds200/protocol/XmlText.kt:11-14 | and takes out the number and mark of the latest match, as greedy stars do |
| `Patterns.RootWithAttributes` | android/app/src/main/java/uk/co/twoe0lxy/sds200/protocol/XmlText.kt:15 | a root with any attributes is found, and its name is what is in front of them |
| `Patterns.PartsWithAttributes` | android/app/src/main/java/uk/co/twoe0lxy/sds200/protocol/XmlText.kt:64-76 | the parts of an element whose root has attributes |
| `XmlReply.LinesJoined` | android/app/src/main/java/uk/co/twoe0lxy/sds200/protocol/ReplyAssembler.kt:39-40 | splitting a datagram into lines loses nothing, and no line holds a carriage return |
| `XmlReply.MarkerKept` | android/app/src/main/java/uk/co/twoe0lxy/sds200/protocol/ReplyAssembler.kt:42-43 | a marker that comes alone is kept and not answered |
| `XmlReply.DocumentAnsweredIffClosed` | android/app/src/main/java/uk/co/twoe0lxy/sds200/protocol/ReplyAssembler.kt:45-53 | the document that follows it, of any number of lines, is answered, marker included, if and only if its root has been closed |
| `XmlReply.BareDocumentAnsweredIffClosed` | android/app/src/main/java/uk/co/twoe0lxy/sds200/protocol/ReplyAssembler.kt:51-61 | a document that comes without a marker is answered if and only if its root has been closed |
| `FragmentText.FragmentRead` | protocol.go:95-115 | a printed fragment, of any number, is taken for its number, mark, parts and text by both programs; beyond Int Kotlin drops it, beyond int64 Go takes the greatest |
| `FragmentText.DocumentFromDatagrams` | android/app/src/main/java/uk/co/twoe0lxy/sds200/protocol/ReplyAssembler.kt:23-37 | for any document sent in fragments as text, in any order and with any repetitions, the offer of each datagram answers null until every fragment has come, and then with the whole document |
| `FragmentText.PartialFromDatagrams` | android/app/src/main/java/uk/co/twoe0lxy/sds200/protocol/ReplyAssembler.kt:64-73 | if the rest never comes, the timeout returns the root with what has come, in number order, from the datagrams' text |
| `FragmentText.BeyondIntIgnored` | android/app/src/main/java/uk/co/twoe0lxy/sds200/protocol/ReplyAssembler.kt:27 | a fragment numbered beyond Int changes nothing |
| `UdpCommand.UdpCommand` | protocol.go:67-147 | the loop over datagrams returns the specified reply for every sequence of them, for any behaviour of encoding/xml |
| `UdpCommand.TakeText` | protocol.go:117-145 | what is gathered from a datagram's lines and which line or text answers |
| `UdpCommand.MergeFragments` | protocol.go:199-215 | both loops equal the merge of the specification, int64 wrap included |
| `UdpCommand.LoneMarkerReturnedIff` | protocol.go:85-87 | over any datagrams the reply is a lone marker if and only if the fragments never make a document, one gathered line is the marker and all others are blank |
| `UdpCommand.GoReturnsLoneMarker` | protocol.go:85-87 | the run of a marker alone: Go returns it |
| `UdpCommand.LoneMarkerDropped` | android/app/src/main/java/uk/co/twoe0lxy/sds200/protocol/ReplyAssembler.kt:74-79 | the Android assembler returns nothing after the same datagram |
| `UdpCommand.MarkerJoinIff` | protocol.go:122-130 | joined lines are the marker if and only if one of them is and the others are blank |
| `UdpCommand.LinesFate` | protocol.go:118-140 | every non-empty line is gathered until one answers, and then more than a marker was gathered |
| `UdpCommand.MarkerText` | protocol.go:129-131 | a marker that comes alone is kept and not answered |
| `UdpCommand.GoDocumentAnsweredIffParses` | protocol.go:142-145 | behind its marker, a document of any number of lines is answered, marker included, if and only if it parses |
| `UdpCommand.GoDocumentFromDatagrams` | protocol.go:95-116 | for any document sent in fragments as text, in any order and with any repetitions, Go answers as soon as everything from the least number seen to the last fragment has come, with that stretch |
| `UdpCommand.DocumentAnsweredAlikeIff` | protocol.go:95-116 | so Go and Kotlin answer a datagram alike if and only if that stretch does not start above 1; with fragment 1 first they always do |
| `LineReply.CommandNamed` | protocol.go:26-29 | in both programs the reply is expected under the name in front of the comma, trimmed and in capitals |
| `LineReply.LineFate` | android/app/src/main/java/uk/co/twoe0lxy/sds200/protocol/ReplyAssembler.kt:39-53 | any line that comes alone, behind any others and without a sign of XML: an error is answered with that error, a line that is the name or begins with it and a comma with everything gathered, any other is kept |
| `LineReply.PlainReplyAnswered` | android/app/src/main/java/uk/co/twoe0lxy/sds200/protocol/ReplyAssembler.kt:45-47 | a plain reply is answered at once and as it is, "NG" and "ERR" in capitals and trimmed |
| `LineReply.GatheredUntilAnswered` | android/app/src/main/java/uk/co/twoe0lxy/sds200/protocol/ReplyAssembler.kt:39-80 | over any lines that answer nothing each is kept, the first that answers returns all, and a timeout before it returns what has come |
| `LineReply.GoLineFate` | protocol.go:118-145 | the same line in Go: with a tag in what is gathered it is answered if and only if that parses, else if and only if it is the name or begins with it and a comma |
| `LineReply.LooksLikeXmlIffTagged` | protocol.go:162-165 | without marker and declaration a text looks like XML if and only if a tag is in it or a '<' in front |
| `LineReply.PlainReplyAnsweredAlikeIff` | protocol.go:132-140 | a plain reply that is no error is answered alike by both programs if and only if there is no tag in it, or Go can parse it from the tag on |
| `LineReply.TagKeepsGoWaiting` | android/app/src/main/java/uk/co/twoe0lxy/sds200/protocol/ReplyAssembler.kt:56-61 | a reply that Android answers at once and Go does not |
| `Rtp.HeaderBits` | protocol.go:551-555 | the model's arithmetic for version, source count and payload type is the source's shifts and masks |
| `Rtp.PaddingBit` | protocol.go:557 | the same for the padding bit |
| `Rtp.ExtensionBit` | protocol.go:556 | the same for the extension bit |
| `Rtp.JoinedBytes` | protocol.go:566 | the same for two bytes joined to a number |
| `Rtp.ParsersAgree` | android/app/src/main/java/uk/co/twoe0lxy/sds200/protocol/Media.kt:37-67 | on every buffer and length the Kotlin and Go parsers accept the same datagrams with the same fields and payload |
| `Rtp.ParseSerialised` | protocol.go:547-585 | every packet with 0 to 15 sources, any extension and any padding comes back from its bytes |
| `Rtp.AcceptedIsSerialised` | protocol.go:547-585 | every accepted datagram is exactly the serialisation of the packet read from it |
| `Rtp.PanelSliceInside` | firmware/jc8012p4a1/main/audio.c:603-617 | the panel's slice is never empty, always inside the datagram, and taken for payload type 0 only |
| `Rtp.PanelTakesWhatGoAccepts` | firmware/jc8012p4a1/main/audio.c:603-617 | on datagrams Go accepts with type 0 and a payload the panel takes the same slice |
| `Rtp.GoAcceptsWhatPanelTakes` | firmware/jc8012p4a1/main/audio.c:606-614 | a datagram the panel takes is one Go accepts, except exactly for a cut-off extension header or a zero padding count |
| `Rtp.PanelTakesMore` | firmware/jc8012p4a1/main/audio.c:606-614 | a datagram of each of the two kinds |
| `PacketLoss.Session.Slice` | firmware/jc8012p4a1/main/audio.c:603-617 | the slice is the one of the specification |
| `PacketLoss.Session.constructor` | firmware/jc8012p4a1/main/audio.c:576-580 | a session starts with an empty ring, zero counters and no expected number |
| `PacketLoss.Session.Account` | firmware/jc8012p4a1/main/audio.c:618-629 | the counters after a packet, with 16- and 32-bit wrap |
| `PacketLoss.Session.Receive` | firmware/jc8012p4a1/main/audio.c:602-632 | a datagram updates the counters and queues exactly the decoded slice, or changes nothing |
| `PacketLoss.TallyIs` | firmware/jc8012p4a1/main/audio.c:618-629 | over any run the counters are packets, bytes and all gaps counted, modulo their width |
| `PacketLoss.LossExactIffNear` | firmware/jc8012p4a1/main/audio.c:619-624 | for increasing true numbers the gaps counted are last - first + 1 less the packets received if and only if no gap exceeds 32767, across any number of 16-bit wraps |
| `PacketLoss.LateArrivalsCountAsLost` | firmware/jc8012p4a1/main/audio.c:619-624 | in any order, the count exceeds that by exactly how far the numbers went back |
| `PacketLoss.LossExactIffInOrder` | firmware/jc8012p4a1/main/audio.c:619-624 | so it is exact if and only if the packets came in increasing order |
| `PacketLoss.NeverUndercounts` | firmware/jc8012p4a1/main/audio.c:619-624 | the count is never below the numbers that really never arrived |
| `PacketLoss.SwapCountsTwo` | firmware/jc8012p4a1/main/audio.c:619-624 | two packets swapped count as two lost |
| `PacketLoss.SoundPacketTaken` | firmware/jc8012p4a1/main/audio.c:603-630 | any sound PCMU packet is queued whole and counted by its own sequence number |
| `JitterBuffer.JitterBuffer.Push` | android/app/src/main/java/uk/co/twoe0lxy/sds200/audio/JitterBuffer.kt:25-42 | the contents become the newest samples of old contents followed by src, as many as capacity and limit allow; `dropped` grows by exactly the rest |
| `JitterBuffer.JitterBuffer.Pull` | android/app/src/main/java/uk/co/twoe0lxy/sds200/audio/JitterBuffer.kt:48-70 | removes exactly the prefix it copies and fills the rest with silence; playing or prebuffered, it counts an underrun and rebuffers if and only if fewer samples are queued than asked for |
| `JitterBuffer.JitterBuffer.Buffered` | android/app/src/main/java/uk/co/twoe0lxy/sds200/audio/JitterBuffer.kt:72 | the number of samples queued |
| `JitterBuffer.JitterBuffer.Clear` | android/app/src/main/java/uk/co/twoe0lxy/sds200/audio/JitterBuffer.kt:74-80 | empties the buffer and rebuffers, keeping the counters |
| `JitterBuffer.Conservation` | android/app/src/main/java/uk/co/twoe0lxy/sds200/audio/JitterBuffer.kt:25-80 | over any run, samples pushed = delivered + dropped + cleared + queued |
| `JitterBuffer.QueueIsTail` | android/app/src/main/java/uk/co/twoe0lxy/sds200/audio/JitterBuffer.kt:25-80 | what is queued is always the tail of what was pushed |
| `JitterBuffer.DeliveredInPushOrder` | android/app/src/main/java/uk/co/twoe0lxy/sds200/audio/JitterBuffer.kt:48-70 | delivered samples keep push order, each at most once, and none is still queued |
| `JitterBuffer.UnderrunEmpties` | android/app/src/main/java/uk/co/twoe0lxy/sds200/audio/JitterBuffer.kt:63-67 | an underrun leaves an empty, rebuffering buffer |
| `JitterBuffer.SilentWhileRefilling` | android/app/src/main/java/uk/co/twoe0lxy/sds200/audio/JitterBuffer.kt:50-56 | from there nothing is delivered until `prebuffer` samples have been pushed, over any calls |
| `JitterBuffer.RefilledPlays` | android/app/src/main/java/uk/co/twoe0lxy/sds200/audio/JitterBuffer.kt:50-62 | and then the next pull delivers, if the prebuffer fits |
| `JitterBuffer.PlaysOnIffEveryPullFinds` | android/app/src/main/java/uk/co/twoe0lxy/sds200/audio/JitterBuffer.kt:48-70 | over any run without a clear, from a playing buffer on: no underrun, no rebuffering and every pull in full if and only if every pull finds what it asks for |
| `JitterBuffer.DropsOnlyAboveLimit` | android/app/src/main/java/uk/co/twoe0lxy/sds200/audio/JitterBuffer.kt:25-42 | wherever a run has led, a push drops exactly what exceeds capacity or limit |
| `JitterBuffer.PlaysIffPrebufferFits` | android/app/src/main/java/uk/co/twoe0lxy/sds200/audio/JitterBuffer.kt:9-13 | anything is ever delivered if and only if the prebuffer fits capacity and limit |
| `PlaybackRing.Panel.RingPushAll` | firmware/jc8012p4a1/main/audio.c:77-90 | the queue becomes the newest 8000 of old queue and decoded samples, with head = (tail + count) mod 8000 |
| `PlaybackRing.Panel.RingClear` | firmware/jc8012p4a1/main/audio.c:92-97 | the queue is empty |
| `PlaybackRing.Panel.Trim` | firmware/jc8012p4a1/main/audio.c:139-142 | terminates, and drops oldest chunks until the limit is met |
| `PlaybackRing.Panel.TakeChunk` | firmware/jc8012p4a1/main/audio.c:144-148 | exactly the oldest 160 samples move to the input buffer |
| `PlaybackRing.Panel.Play` | firmware/jc8012p4a1/main/audio.c:130-174 | one pass of the playback task: new queue, flags and counters, and the frame written to the codec |
| `PlaybackRing.TrimDropsOldestChunks` | firmware/jc8012p4a1/main/audio.c:139-142 | trimming drops only whole 160-sample chunks, at the old end, and no more than needed |
| `PlaybackRing.PassBoundsQueue` | firmware/jc8012p4a1/main/audio.c:130-159 | after a pass at most 3840 samples are queued |
| `PlaybackRing.PassPlaysIff` | firmware/jc8012p4a1/main/audio.c:130-174 | a pass plays 160 samples if and only if it was playing or finds 1600, and finds 160; else it counts an underrun and rebuffers, or waits; the sample carried over is the last played, or silence |
| `PlaybackRing.UnbrokenIffSupplied` | firmware/jc8012p4a1/main/audio.c:138-157 | over any interleaving, playing goes on without an underrun if and only if every pass finds a chunk and the codec is not reopened |
| `PlaybackRing.StatusFollows` | firmware/jc8012p4a1/main/audio.c:132-155 | over any interleaving, until the codec is reopened, the status says playing exactly while not buffering |
| `PlaybackRing.QueueIsTail` | firmware/jc8012p4a1/main/audio.c:77-97 | in every interleaving of the two tasks the queue is the tail of what was received |
| `PlaybackRing.ChunksInOrder` | firmware/jc8012p4a1/main/audio.c:143-149 | chunks played are disjoint stretches of what was received, in order |
| `PlaybackRing.HeardIsOnePass` | firmware/jc8012p4a1/main/audio.c:161-174 | over consecutive full chunks the frames written are one interpolation of what was played |
| `Ulaw.UlawBits` | firmware/jc8012p4a1/main/audio.c:69-75 | the model's arithmetic is the source's complement, masks and shifts on machine words |
| `Upsampler.Interpolate` | firmware/jc8012p4a1/main/audio.c:163-170 | the loop computes the interpolation and carries the last sample |
| `Upsampler.FramesAre` | firmware/jc8012p4a1/main/audio.c:163-170 | each sample becomes two frames, both channels alike: the mean with the sample before it, an odd sum losing its half toward zero, and itself |
| `Upsampler.ChunkIndependence` | firmware/jc8012p4a1/main/audio.c:161-174 | chunk by chunk with the carried sample equals one pass over the concatenation |
| `Upsampler.MidpointBetween` | firmware/jc8012p4a1/main/audio.c:164 | every midpoint lies between its neighbours, and in 16 bits |
| `StsDisplay.DecodeDisplayText` | protocol.go:403-422 | printable text with tabs as commas and glyphs as spaces, without trailing spaces |
| `StsDisplay.DecodedIs` | protocol.go:403-422 | character by character: a tab as a comma, what is not printable as a space, spaces at the end dropped |
| `StsDisplay.ParseSTS` | protocol.go:453-479 | form, fonts and texts of a frame, or an error |
| `StsDisplay.StsCopy` | firmware/jc8012p4a1/main/scanner.c:452-468 | fills exactly the 30 columns and the terminator |
| `StsDisplay.Screen.SplitFields` | firmware/jc8012p4a1/main/scanner.c:475-490 | the loop collects the first 42 fields |
| `StsDisplay.Screen.ParseSts` | firmware/jc8012p4a1/main/scanner.c:470-513 | the screen becomes the frame's rows, the change counter moves exactly when they differ; a refused frame changes nothing |
| `StsDisplay.PanelTakesWhatGoTakes` | firmware/jc8012p4a1/main/scanner.c:470-497 | for every buffer, the panel takes a frame if and only if Go does, it is in capitals, and it has at most 12 lines |
| `StsDisplay.PanelShowsWhatGoDecodes` | firmware/jc8012p4a1/main/scanner.c:498-503 | its rows are then Go's texts cut or padded to 30 columns |
| `StsDisplay.KotlinAgreesWithGo` | android/app/src/main/java/uk/co/twoe0lxy/sds200/protocol/Sts.kt:40-61 | on replies of one line Kotlin and Go agree, except exactly for forms over 40 lines or with other digits |
| `StsDisplay.FirstStsLineRead` | android/app/src/main/java/uk/co/twoe0lxy/sds200/protocol/Sts.kt:41 | of a reply of several lines Kotlin reads the first that starts as one, whatever is around it |
| `StsDisplay.TagInAnyCase` | protocol.go:455 | Go takes the tag in any mixture of capital and small letters |
| `StsDisplay.FrameParsed` | main_test.go:10-24 | every printed frame parses to its form and its decoded texts |
| `StsDisplay.TextBackIff` | protocol.go:403-422 | a text, commas sent as tabs, comes back as it was if and only if it is printable and does not end in a space |
| `StsDisplay.ScreenShowsFrame` | firmware/jc8012p4a1/main/scanner.c:470-513 | a printed frame of 1 to 12 lines fills the screen with its texts and modes, row by row |
| `XmlAttribute.Look` | firmware/jc8012p4a1/main/scanner.c:278-297 | the search through the table of entities |
| `XmlAttribute.XmlDecode` | firmware/jc8012p4a1/main/scanner.c:274-311 | the buffer holds the decoded, trimmed value and its terminator; nothing beyond `len` is written |
| `XmlAttribute.DecodedIsPrintable` | firmware/jc8012p4a1/main/scanner.c:296-297 | only printable characters are written, no more than there is room for |
| `XmlAttribute.DecodedFirst` | firmware/jc8012p4a1/main/scanner.c:278-297 | each of the five entities in front is decoded to its character |
| `XmlAttribute.OtherFirst` | firmware/jc8012p4a1/main/scanner.c:296-297 | any other character but an ampersand stands for itself if printable, else for a space |
| `XmlAttribute.DecodeEscaped` | firmware/jc8012p4a1/main/scanner.c:276-299 | for every way of escaping a text, decoding gives the text back, as far as the buffer reaches |
| `XmlAttribute.AttributeBackIff` | firmware/jc8012p4a1/main/scanner.c:274-311 | the value comes back as it was if and only if it fits, is printable and has no outer spaces |
| `XmlAttribute.EscapedEscapes` | firmware/jc8012p4a1/main/scanner.c:279-281 | writing all five entities is one such way |

## Left out

- Sockets, timeouts, DNS, HTTP, JSON, files, NVS, the codec and all user interfaces; what they deliver is a
  parameter.
- Log lines, stage and error texts, status reports, packet and byte statistics of the hub other than the packet
  count that AcquireExisting tests.
- Letters above 127 in case mapping, and the white space that Go's `TrimSpace` finds in two- and three-byte characters:
  `uppercase`, `lowercase` and `EqualFold` are modelled for ASCII, and `trim` for one byte a character, each language
  with its own white space.
- ReplyAssembler.Assembler.Offer: letters above 127 are compared as they are, where `uppercase` maps some of them.
- ReplyAssembler.Assembler.OfferLines: the same.
- RtspFraming.AndroidReader.ParseHeaders: the same for `lowercase` in header names.
- Go's `\s` has no vertical tab and Kotlin's has; both patterns are modelled with it.
- What encoding/xml takes for a document: UdpCommand's results are for any such test.
- Go's `xmlParts` when the last closing tag stands in front of the opening one, where it would slice backwards; the
  model takes the empty text, as Kotlin does.
- Sessions the scanner closes by itself or by a power cycle: a session left behind is never closed in the model.
- Exchanges that do not go through `App.command`: discovery and probing (main.go:237, handlers.go:1138, handlers.go:1192).
- The full element parsers (`xmlRecords`, `parseElements`, `parseScannerInfo`) and the command tables.
- Of the sources' regular expressions only footer, root and self-closing tag are modelled.
- SDP and Transport parsing: whether DESCRIBE's and SETUP's replies are acceptable is one bit of the reply.
- Concurrent use of one RTSP client: keepalive against TEARDOWN in Go, concurrent `close` in Kotlin.
- Subscriber fan-out of the hub, recorder and WAV output, waterfall control, discovery.
- The model and firmware queries inside `readState`, the model and firmware fields, and control commands while no
  host is selected.
- The control-token check and configuration changes while leases are held; the lease time is fixed over a run.
- Wrap of the panel's underrun counter and of the Android counters after 2^32 and 2^63 events.
- XmlReply.DocumentAnsweredIffClosed: each line of the document starts with '<', as the scanner's do; empty lines
  other than a last one would be dropped from the answer.
- UdpCommand.GoDocumentAnsweredIffParses: the same.
- UdpCommand.LoneMarkerReturnedIff: commands without a name, or with '<' in it, are not covered; a carriage return in a
  command is refused by the source.
- ReplyAssembler.LoneMarkerNeverReturned: commands with '<' in their name, which no caller sends, are not covered.
- FragmentText.CompleteIffClosed: says nothing of replies that open the root's name again inside it.
- Patterns.SelfClosedCompleteIff: says nothing of replies with another tag behind the root.
- LineReply.LineFate: a line in which the text of a footer's tag begins, or that ends in a NUL, is not covered.
- LineReply.GoLineFate: the same.
- StsDisplay.KotlinAgreesWithGo: says nothing of replies of several lines, where Kotlin picks the first line
  that starts as a reply does (StsDisplay.FirstStsLineRead) and Go takes the whole text.
- Frames of more than 12 lines on the panel, which it refuses.
- The order in which the Android client checks a malformed status line: it reads the header lines first.
- RtspFraming.Reader.ReadResponse: does not say where a failed read leaves the stream; both clients drop the
  connection then.
- RtspFraming.AndroidReader.ReadResponse: the same.
