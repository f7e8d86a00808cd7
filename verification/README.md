# LocalSSH: a verified model

LocalSSH runs an SSH client in the browser. A Go engine compiled to WebAssembly speaks SSH over a WebSocket to a small
relay, which opens the TCP connection to the host. This project models the parts of that system where a small mistake
loses or repeats bytes, and proves that they do not. `dafny verify dfyconfig.toml` checks all of it.

## The resumable transport

Protocol version 2 lets a session outlive its socket. Two byte streams run between the page and the SSH host while
sockets drop, the page reconnects or takes over from a socket the relay still believes in, and both ends replay what
was not acknowledged.

- `Frames` has the frames and the shared limits.
- `RelayNode` and `ClientNode` describe each end as values: what every call, frame, callback and timer does to its
  windows, and which frames and target writes come out. Both hold their windows against arbitrary frames.
- `RelaySession` and `ResumeState` are the objects the relay and the engine really keep, fields updated in place, with
  the list of retained chunks and the flush loops. Each method is proved to do what the value functions say.
- `RelayHandlers` and `PageHandlers` say of every handler when exactly it does what, and all that it then does, in the
  fields' own terms.
- `World` puts both ends on a network that may lose, repeat, reorder and misdeliver every frame ever sent. `W` is every
  byte the page accepted for the host and `T` every byte the host produced. `World.ExactlyOnce` holds after every run.
- `Wire` gives each socket its order back. `HonestPair` and `HonestWindows` hold the invariants that tie the frames in
  flight to both ends, one lemma per move, and `HonestRuns` concludes for every run: two honest ends never refuse each
  other, token rotation never strands the page, no byte is stuck once the pair is at rest, and flow control never leaks.
  Every such run is a run of `World`.
- `HonestRest` gives a measure of what is still to be done and concludes that every attached pair comes to rest: each
  delivery, flush, completion, read and acknowledgement lowers it, and one of them is possible until nothing is owed.
  `HonestRecovery` brings every other live session back to being attached, and says which cannot be. `HonestWrites`
  concludes that whatever the application writes is taken and arrives, and that it can read whatever the host produces.
- `SentFrames` ties the transport to the codec: every frame either end sends, over any network, can be encoded and is
  decoded to itself.
- `ResumeLimits` shows where the assumptions of `HonestRuns` come from, and what happens without them.

## The relay as a whole

`Admission` sorts detached sessions by age and specifies eviction, the cap on detached bytes and admission.
`RelayServer` is the whole relay as a state machine over sockets, sessions, v1 tunnels, time and timers, with its four
bounds, the expiry theorem, and the loops of the relay as methods of a class. `TableEvents` says what each event does to
the table, and `Expiry` that a session nobody resumes does expire, when, and that no grace is above the cap. `WholeRelay`
puts the stream of each session behind its place in that table and shows that what a session is said to pin is what its
buffers hold. `Holders` says who gets hold of a session there.

## The frame codec

`Base64`, `Json` and `Codec` print and parse frames character by character, with lengths counted as the relay counts
them (UTF-16 code units) and as the Go side does (UTF-8 bytes). `WireText` spells out the text of every frame.

## Smaller cores

- `WriteQueue`: the queue that moves terminal input off the caller's goroutine, under every interleaving.
- `Download`: the resumable download, from the record's offset and tail through the engine's checks and its writer into
  the page's segments, with storage failing or the page dying before any storage operation. `DownloadVersions`: the same
  while the remote file changes between the lives.
- `Upload`: the staged upload, with any server operation failing and other clients acting between any two of them.
- `Touch`: selection edits on a touch screen, checked against a line editor that runs the bytes that are sent.
- `VaultDocument` and `Trimming`: the address book's document as an ordered map with its validity. `VaultText`: its JSON
  text and the sealed blob around it, character by character, and what the limits on both mean. `VaultDecode`: reading
  that text back.
- `VaultTabs`: one vault in many tabs, guarded by compare-and-set. `VaultEdits`: what an edit leaves of a document, field
  by field, that the edit asked for is the edit that is stored, and what every action of a tab comes to.

## Where the code and its promises differ

The model follows the code. These lemmas say exactly when it falls short of what its comments or its shape promise.

- A resume sent while the page still holds unread bytes can end the session: the page compares the relay's answer with
  its present `serverAck`, which a read may have moved (engine/wsconn/wsconn.go:753-756).
  `ResumeLimits.ResumeSafeExactlyWhenDrained` gives the condition, `ResumeLimits.UnreadByteKillsResume` an input.
- An abandoned resume request that arrives late takes the session over whenever its token and offsets still fit, and
  the page that holds the session is told `superseded` and closes (relay/src/local-relay.ts:345-383).
  `ResumeLimits.TakeoverExactlyWhenItFits` gives the condition, `ResumeLimits.LateResumeTakesOver` a run in which it
  happens to an attached page; the first frame on a newer attachment ends the danger,
  `ResumeLimits.FirstFrameRetiresOldToken`.
- A second `ready` on the first socket is accepted and can lower the limit below what is already buffered
  (engine/wsconn/wsconn.go:716-746). `ClientNode.ReadyKeepsBoundExactlyWhenItCovers`, `ClientNode.SecondReadyBreaksBound`;
  with this relay it cannot happen, `ResumeLimits.BoundHoldsWithThisRelay`.
- A record that holds a whole file does not open again when the file's size is no multiple of 4 MiB
  (frontend/src/downloadStore.ts:157-159): `Download.ReopensUnlessAShortFileIsComplete` gives the condition,
  `Download.ShortRecordDoesNotReopen` an input. Finishing leaves such a record, and so does a page that dies, or fails,
  between its last commit and reading the segments back (frontend/src/downloadStore.ts:199-204). The panel then deletes
  the record and starts over in memory, which holds 16 MiB: `Download.CommittedButNotReadBack` is a run in which an
  undisturbed download of more ends with nothing, and `Download.RunLife` and `Download.DownloadInLives` say exactly when
  it does.
- A download whose file shrank after it was measured ends as complete (engine/remotefiles/remotefiles.go:309-322):
  `Download.Download` says that an undisturbed run handed on all of the size if and only if the file is still that long,
  and `Download.ShrunkFileEndsComplete` is a short file that ends complete.
- The comment on a download's record says that its size and time are those the engine reported at the start
  (frontend/src/downloadStore.ts:25-27). The code takes them from the listing, and a record without bytes goes on unchecked
  (frontend/src/components/FilePanel.tsx:226-245, engine/remotefiles/remotefiles.go:276-282). A version of the file that
  was seen in the listing, was replaced before the start and comes back later is spliced with the other one:
  `DownloadVersions.ReturningFileIsSpliced` is an input, `DownloadVersions.RunVisit` says exactly when a life ends with the
  file it saw, and `DownloadVersions.VersionsInLives` that it always does when no version comes back.
- A DEL inside a bracketed paste is recorded as an erase although the editor inserts it
  (frontend/src/terminalTouch.ts:25-38): `Touch.RecordIsTheBuffer` gives the condition, `Touch.PastedDelIsNotErased` an
  input.
- The bounds on single vault entries do not bound the document (engine/vault/document.go:13-22): a document that edits
  reach opens again exactly when its text is within 1 MiB, `VaultText.ReachableOpensExactlyWhenItFits`, and
  `VaultText.FullVaultIsRefusedBySeal` is one that is not. The limit on the sealed blob keeps such a document from being
  stored: `VaultText.SealAcceptsExactlyWhenTextFits`, `VaultText.SealedAlwaysOpens`; what is stored comes back,
  `VaultDecode.SealedComesBack` and, with nothing assumed of how numbers are printed,
  `VaultDecode.SealedStepsComeBack`.

## Model

| member | source | states |
|---|---|---|
| RelayNode.MessageKeepsWindows | relay/src/local-relay.ts:487-570 | Any frame a client can send, on any socket, keeps the relay's server window and client-history window and moves no offset back |
| RelayNode.ClientDataAppendsTail | relay/src/local-relay.ts:513-546 | A client data frame changes nothing, or appends to history, offset and target exactly the part past clientOffset, and only when it agrees with the history where it overlaps |
| RelayNode.ServerAckKeepsWindows | relay/src/local-relay.ts:506-512 | An acknowledgement of server data, in range or not, keeps the windows |
| RelayNode.ResumeKeepsWindows | relay/src/local-relay.ts:339-392 | A resume request, served or refused, keeps the windows |
| RelayNode.TargetDataKeepsWindows | relay/src/local-relay.ts:450-465 | Target data splits into a retained part that fits 262144 bytes and the rest that is handed back; nothing is lost |
| RelayNode.WriteDoneKeepsWindows | relay/src/local-relay.ts:547-563 | Completions of target writes acknowledge in order and never past clientOffset, also on a revoked session |
| RelayNode.FlushedMovesOnlyServerSent | relay/src/local-relay.ts:315-337 | A flush moves serverSent forward within what is retained and changes nothing else |
| RelayNode.FlushedSendsRetained | relay/src/local-relay.ts:315-337 | A flush sends exactly the retained bytes from the old serverSent to the new one, contiguous, in frames of 1 to 32768 bytes |
| RelayNode.HeldBytesBounded | relay/src/local-relay.ts:254-257 | A session never pins more than three windows of 262144 bytes |
| RelayHandlers.ResumeServedExactlyWhen | relay/src/local-relay.ts:344-364 | A resume request is served if and only if the session lives, id and origin are its own, the token is its present or previous one, and both offsets lie in the windows; whether the session is attached makes no difference |
| RelayHandlers.StrangerIsRefused | relay/src/local-relay.ts:345-354 | A wrong id, origin or token, or a session that is over, is answered `expired` on the asking socket and changes nothing |
| RelayHandlers.WrongOffsetsEndTheSession | relay/src/local-relay.ts:355-364 | A fitting token with an offset out of the windows is answered `offset_mismatch` and ends the session, whose socket is told `session_closed` |
| RelayHandlers.ResumeIsServed | relay/src/local-relay.ts:365-391 | The whole effect of serving: the old socket is told `superseded`, then the new one where the relay stands and its new token; what the page acknowledged is dropped, the rest is to be sent again, and the presented token stays good as the previous one |
| RelayHandlers.OthersAreIgnored | relay/src/local-relay.ts:487-490 | A frame on another socket than the attached one, or on a session that is over, changes nothing and is not answered |
| RelayHandlers.ClientData | relay/src/local-relay.ts:513-566 | Client data ends the session exactly when it starts outside the history, differs from it, or overruns 262144 pending bytes; repeated data is acknowledged again; of new data every byte goes to the target, the history and the pending writes |
| RelayHandlers.ServerAck | relay/src/local-relay.ts:506-512 | An acknowledgement between what was acknowledged and what was sent drops exactly the bytes up to it; any other ends the session as `offset_mismatch` |
| RelayHandlers.OtherFrames | relay/src/local-relay.ts:496-569 | Detach lets go and keeps everything, close ends the session, a ping is answered with a pong, and any other or unreadable frame ends the session as `session_closed` |
| RelayHandlers.TargetChunk | relay/src/local-relay.ts:450-465 | Of a chunk from the target as much is retained as 262144 bytes leave room for, and the rest is handed back |
| RelayHandlers.TargetWrote | relay/src/local-relay.ts:547-563 | A finished write moves the acknowledgement to its end, frees its bytes and tells the attached page; on a session that is over it only leaves the list |
| RelayHandlers.SessionEnds | relay/src/local-relay.ts:241-253 | Ending a session happens once, drops what was retained and tells the attached socket the code |
| RelaySession.LocateUnsent | relay/src/local-relay.ts:318-324 | The walk over the chunk list finds the chunk and the place in it that hold byte serverSent |
| RelaySession.Session.AcknowledgeServer | relay/src/local-relay.ts:300-314 | The loop over the chunk list drops exactly the acknowledged prefix, cuts a chunk the offset falls inside, and leaves no empty chunk |
| RelaySession.Session.SendNext | relay/src/local-relay.ts:318-333 | One frame is the next unsent bytes, never empty, at most 32 KiB |
| RelaySession.Session.FlushServer | relay/src/local-relay.ts:315-337 | The flush loop terminates, and its frames are a flush of the abstract session; it stops only when all is sent or the socket refuses |
| RelaySession.Session.OnTargetData | relay/src/local-relay.ts:450-465 | The handler updates the chunk list as the abstract target-data step, then flushes until all is sent or the socket is full, and pauses the target exactly when bytes were handed back or the window is full |
| RelaySession.Session.OnClientData | relay/src/local-relay.ts:513-566 | The handler updates the fields as the abstract client-data step, rejections included |
| RelaySession.Session.OnServerAck | relay/src/local-relay.ts:506-512 | The handler is the abstract acknowledgement step, followed by a flush until all is sent or the socket is full |
| RelaySession.Session.OnAttachedMessage | relay/src/local-relay.ts:491-570 | Every frame kind on the attached socket does what the abstract session does |
| RelaySession.Session.OnMessage | relay/src/local-relay.ts:487-490 | A frame on a superseded socket or a revoked session changes nothing |
| RelaySession.Session.OnResume | relay/src/local-relay.ts:343-392 | Token, origin and offset checks, takeover, acknowledgement and rotation refine the abstract resume, attached or not; then the replay goes on until all is sent or the socket is full |
| RelaySession.Session.OnWriteDone | relay/src/local-relay.ts:547-563 | The completion callback refines the abstract one |
| RelaySession.Session.Revoke | relay/src/local-relay.ts:241-253 | Revoking happens once, tells the attached socket and empties the retained list |
| RelaySession.FlushExtends | relay/src/local-relay.ts:315-337 | Appending the next data frame to a flush gives a flush |
| ClientNode.ReceiveKeepsWindows | engine/wsconn/wsconn.go:690-836 | No relay frame, whatever it carries, breaks a window of the page; only `ready` may change the announced limit |
| ClientNode.DataAppendsTail | engine/wsconn/wsconn.go:776-799 | A data frame changes nothing, or agrees with the buffer where it overlaps and appends exactly the part past serverOffset |
| ClientNode.ReadConserves | engine/wsconn/wsconn.go:948-972 | A read hands over bytes in order and loses none |
| ClientNode.ReadKeepsWindows | engine/wsconn/wsconn.go:948-972 | A read and the acknowledgement it may trigger keep the windows and the announced bound |
| ClientNode.WriteKeepsWindows | engine/wsconn/wsconn.go:989-1025 | A write keeps the windows and the announced bound |
| ClientNode.WriteSendsUnsent | engine/wsconn/wsconn.go:989-1025 | What a write takes stays pending until acknowledged, and an attached open socket carries exactly the unsent bytes |
| ClientNode.ChunksCarryAll | engine/wsconn/wsconn.go:880-895 | A flush carries exactly the unsent bytes, in order, in frames of 1 to 32768 bytes |
| ClientNode.ResumedReplays | engine/wsconn/wsconn.go:747-775 | `resumed` adopts token and acknowledgement and sends everything past it again |
| ClientNode.NextDataFits | engine/wsconn/wsconn.go:786-795 | New data at serverOffset is taken whenever it fits the announced limit |
| ClientNode.ReadyKeepsBoundExactlyWhenItCovers | engine/wsconn/wsconn.go:716-746 | The code accepts a second `ready` on the first socket; the announced bound survives it exactly when the new limit covers both buffers |
| ClientNode.SecondReadyBreaksBound | engine/wsconn/wsconn.go:716-746 | A concrete second `ready` with limit 1 over two buffered bytes breaks the announced bound |
| PageHandlers.WriteTakes | engine/wsconn/wsconn.go:997-1010 | A write takes as much as it is offered or as the window has room for, whichever is less, so it takes nothing only of nothing, on a closed page or with a full window; what it takes is pending after what was |
| PageHandlers.ReadHandsOver | engine/wsconn/wsconn.go:955-968 | A read hands over as much as was asked for or was received, whichever is less, and acknowledges at once exactly when 32768 bytes are due and the socket is open |
| PageHandlers.TimerAcks | engine/wsconn/wsconn.go:868-878 | An acknowledgement is sent exactly when one is due on an attached open page, and carries what was read |
| PageHandlers.ReadyFrame | engine/wsconn/wsconn.go:716-746 | `ready` is taken if and only if it comes on the first socket with a hexadecimal id and token, a limit of 1 to 262144 and graces in range with the grant under the cap; its fields are adopted, and otherwise the transport closes |
| PageHandlers.ResumedFrame | engine/wsconn/wsconn.go:747-775 | `resumed` is taken if and only if the page asked for it, its acknowledgement lies in the window, it agrees with what was read and its token is hexadecimal; then everything past its acknowledgement goes out again |
| PageHandlers.DataFrame | engine/wsconn/wsconn.go:776-799 | Server data is taken if and only if it repeats the bytes received before serverOffset and what it adds fits the limit; all that it adds is appended, and otherwise the transport closes |
| PageHandlers.AckFrame | engine/wsconn/wsconn.go:800-812 | An acknowledgement between what was acknowledged and what was sent drops exactly the pending bytes up to it, and any other closes the transport |
| PageHandlers.OtherFrames | engine/wsconn/wsconn.go:813-836 | A pong is taken while attached, an error closes with its code, and any other frame closes as unexpected |
| PageHandlers.OthersAreSkipped | engine/wsconn/wsconn.go:614-632 | A frame on another socket than the present one, or after the end, changes nothing |
| PageHandlers.Sockets | engine/wsconn/wsconn.go:563-612 | A new socket asks with the page's session, token and both acknowledgements, a lost one leaves the rest, and a heartbeat pings only while attached and not let go |
| ResumeState.State.Flush | engine/wsconn/wsconn.go:880-895 | The loop that advances clientSent sends the frames of the abstract flush |
| ResumeState.State.OnReady | engine/wsconn/wsconn.go:716-746 | The handler refines the abstract one, refusals included |
| ResumeState.State.OnResumed | engine/wsconn/wsconn.go:747-775 | The handler refines the abstract one, refusals included |
| ResumeState.State.OnData | engine/wsconn/wsconn.go:776-799 | The handler refines the abstract one, duplicate comparison included |
| ResumeState.State.OnAck | engine/wsconn/wsconn.go:800-812 | The handler refines the abstract one |
| ResumeState.State.Receive | engine/wsconn/wsconn.go:614-632 | Only frames on the current socket count, and a refused frame closes the transport |
| ResumeState.State.Read | engine/wsconn/wsconn.go:948-972 | One turn of read refines the abstract one; the delayed acknowledgement is armed exactly when something was read and 32 KiB are not yet due |
| ResumeState.State.Write | engine/wsconn/wsconn.go:989-1017 | One turn of write refines the abstract one, so it takes exactly what `PageHandlers.WriteTakes` says |
| ResumeState.State.SendAck | engine/wsconn/wsconn.go:868-878 | An acknowledgement counts as sent only when the socket took it |
| World.StepKeepsStreams | relay/src/local-relay.ts:338-575 | Every event of either end, with frames lost, duplicated, reordered or delivered on any socket, keeps the invariant of both streams |
| World.ExactlyOnce | relay/src/local-relay.ts:338-570 | After every run the target has exactly W[0..clientOffset], the application has read exactly T[0..serverAck], and every other byte is still held by its sender while the session lives |
| World.FlushIsARun | relay/src/local-relay.ts:315-337 | What one flush loop sends is a run of single-frame events, so the theorems cover whole flushes |
| HonestPair.MoveKeeps | relay/src/local-relay.ts:338-575 | Every move of the honest pair keeps the invariant that ties the queues in flight to both ends' windows |
| HonestRuns.NeverRefuses | engine/wsconn/wsconn.go:753-812 | With sockets in order, no abandoned resume after a later one, and an empty receive buffer at each resume, neither end ever refuses a frame of the other, and nothing but a close or a revocation ends the session |
| HonestRuns.TokenNeverStranded | relay/src/local-relay.ts:376-383 | After any number of lost `resumed` frames, and any frames the page sends, heartbeat pings included, the page's token is the current one or the previous one, and the previous one is forgotten only when the page holds the current one |
| HonestRuns.NothingStuckAtRest | relay/src/local-relay.ts:338-575 | Once attached with nothing in flight, the target has every byte the page wrote and the page every byte the relay took |
| HonestWindows.MoveTells | relay/src/local-relay.ts:450-575 | Every move keeps this: what each end has been told, or will be told by the frames in flight, is where the other end stands |
| HonestRuns.WindowsReopen | engine/wsconn/wsconn.go:800-811 | Flow control never leaks: whatever dropped and resumed before, a pair with nothing in flight and nothing owed has both windows fully open again |
| HonestRest.WorkEases | relay/src/local-relay.ts:315-337 | Every delivery, flush, completion, read and due acknowledgement of an attached pair lowers the measure of what is left to do, and keeps the pair attached and both streams as they are |
| HonestRest.UnsettledHasWork | relay/src/local-relay.ts:315-337 | While a byte, a frame, a write or an acknowledgement is outstanding, some of that work is possible |
| HonestRest.WorkIsBounded | relay/src/local-relay.ts:315-337 | In whatever order the work is done, no more of it is possible than the measure says |
| HonestRest.EveryRunSettles | engine/wsconn/wsconn.go:848-1025 | Every run that left the pair attached can be continued by such work alone until the target has every byte the page wrote, the application every byte the relay took, and both windows are fully open |
| HonestRecovery.EveryLivePairSettles | engine/wsconn/wsconn.go:897-946 | Every run of a session that still lives, attached or not, can be continued: the page, resumed by the application if it was detached, drops, reads what it holds, resumes on a new socket, is served, and the pair settles with every byte delivered and both windows open |
| HonestRecovery.SettlesExactlyWhenItHears | engine/wsconn/wsconn.go:897-946 | A live pair can be continued until it settles if and only if the page knows the session or still has its first socket |
| HonestWrites.EveryWriteArrives | engine/wsconn/wsconn.go:989-1025 | Every run of a live session can be continued, with any bytes q offered in turns, until the target has every byte written before and then all of q, in order, and the pair is settled |
| HonestWrites.EverythingProducedIsRead | engine/wsconn/wsconn.go:948-987 | Every run of a live session can be continued until the application has read everything the target ever produced, taken by the relay or not when the run ended |
| HonestRuns.RunsAreWorldRuns | relay/src/local-relay.ts:338-575 | Every run of the honest pair is a run of the arbitrary network, so exactly-once holds there too |
| ResumeLimits.ResumeSafeExactlyWhenDrained | engine/wsconn/wsconn.go:753-756 | The page accepts the relay's honest answer under every schedule of reads exactly when its receive buffer was empty at the resume |
| ResumeLimits.UnreadByteKillsResume | engine/wsconn/wsconn.go:753-756 | A concrete page with one unread byte closes its own session when that byte is read before `resumed` arrives |
| ResumeLimits.TakeoverExactlyWhenItFits | relay/src/local-relay.ts:345-383 | A resume on another socket takes the session over exactly when token and offsets fit, however late it arrives, and the page is then told `superseded` |
| ResumeLimits.LateResumeTakesOver | relay/src/local-relay.ts:345-383 | In every session a run of World: the page gives up one resume, a later one is served and the page is attached; the abandoned request then arrives, takes the session, and the page closes |
| ResumeLimits.FirstFrameRetiresOldToken | relay/src/local-relay.ts:488-490 | After the first frame on the new attachment only the current token fits |
| ResumeLimits.BoundHoldsWithThisRelay | relay/src/local-relay.ts:441-449 | In every run over the arbitrary network the page keeps both buffers within the announced limit, because this relay only ever announces the full window |
| SentFrames.EverySentFrameEncodes | relay/src/protocol.ts:239-283 | Over any network every frame either end sends is printed by the codec and decoded to itself, while ids and tokens are hexadecimal and both streams shorter than 2^53 bytes |
| SentFrames.StepStaysSound | relay/src/local-relay.ts:238-240 | Every event keeps the fields of all frames ever sent in range; the page adopts ids and tokens from sent frames only |
| Admission.SortedByAge | relay/src/local-relay.ts:258-261 | The oldest-first list is sorted by detachedAt and holds exactly the detached sessions |
| Admission.SortIsStable | relay/src/local-relay.ts:258-261 | Sessions detached in the same millisecond keep their order of creation |
| Admission.EvictsOldest | relay/src/local-relay.ts:258-270 | Revoking the k oldest leaves the other detached sessions in order and every attached one |
| Admission.EnforceCapRestores | relay/src/local-relay.ts:262-270 | After enforcing the cap detached sessions pin at most 16 MiB; the evicted ones are the shortest oldest-first prefix that achieves it |
| Admission.AdmitEvictsExcess | relay/src/local-relay.ts:277-284 | Admission refuses exactly when evicting every detached session would not make room, and otherwise evicts exactly the excess, oldest first |
| RelayServer.GrantIsTheLeast | relay/src/local-relay.ts:410-411 | The grant is the smaller of request and cap, and unlimited exactly when both are |
| RelayServer.DelaysCoverTheGrace | relay/src/local-relay.ts:285-292 | The chunked delays are each at most 2^31-1 and sum to exactly the grace |
| RelayServer.StepKeepsInv | relay/src/local-relay.ts:258-299 | Every event of the relay keeps unique ids, one role per socket, room, the cap and the timers |
| RelayServer.RelayStaysBounded | relay/src/local-relay.ts:262-299 | In every reachable state of the table v2 sessions plus v1 tunnels stay within maxSessions, detached sessions pin at most 16 MiB, each session three windows, and a timer runs exactly for detached sessions with a finite grace |
| RelayServer.AdmitMakesRoom | relay/src/local-relay.ts:404-432 | An admitted connect, v1 or v2, leaves room for itself |
| RelayServer.ExpiresOnlyAfterGrace | relay/src/local-relay.ts:285-299 | A session expires only if at every earlier moment within its grace it was already detached |
| RelayServer.ConnectedRelay | relay/src/local-relay.ts:254-257 | The transport obeys the bounds the relay's events assume: only target data can grow a detached session |
| TableEvents.ConnectsV2 | relay/src/local-relay.ts:404-432 | A connect is refused exactly when the open sockets alone exceed maxSessions; otherwise exactly the excess of the oldest detached sessions goes and one session is added, attached, empty, with the requested grace or the cap, whichever is less |
| TableEvents.ConnectsV1 | relay/src/local-relay.ts:277-284 | A v1 connect makes room in the same way and gets no session |
| TableEvents.Resumes | relay/src/local-relay.ts:373-390 | A resumed session is on the new socket without a timer, in its place in the list, and nothing else changes |
| TableEvents.Detaches | relay/src/local-relay.ts:293-299 | A session that lets go is in its place with the time and, under a finite grace, a timer for the grace or for 2147483647 ms of it with the rest to come; then the cap on detached bytes is enforced |
| TableEvents.Closes | relay/src/local-relay.ts:571-574 | A socket that closes leaves every set; the session on it, if there is one, lets go, and no other changes |
| TableEvents.Holding | relay/src/local-relay.ts:254-270 | Bytes that come and go change what their session holds and nothing else, but data from the target may push detached sessions over the cap |
| TableEvents.TimerFires | relay/src/local-relay.ts:285-292 | A due timer with no grace left takes exactly its session out of the table; one with grace left is armed again for all of it or 2147483647 ms, whichever is less |
| TableEvents.TimerIsDue | relay/src/local-relay.ts:285-292 | A timer can fire exactly when its session is in the table and the time has come |
| TableEvents.Revokes | relay/src/local-relay.ts:241-253 | Revoking takes exactly that session out and moves no other |
| TableEvents.Opens | relay/src/local-relay.ts:596-600 | A socket is refused exactly when maxSessions handshakes are unanswered |
| Expiry.UnresumedExpires | relay/src/local-relay.ts:285-299 | In every run a session that lets go and is not resumed is gone after the last of |Delays(grace)| firings at the latest; before that its timer runs for exactly the k-th delay, counted from the last firing, with the sum of the later ones to come |
| Expiry.ExpiresOnTime | relay/src/local-relay.ts:285-292 | From the moment it lets go such a session can be gone after exactly its grace, by |Delays(grace)| firings that each come when they are due |
| Expiry.DelayIs | relay/src/local-relay.ts:286-288 | The k-th delay of a grace is what is left of it or 2147483647 ms, whichever is less |
| Expiry.NoGraceAboveTheCap | relay/src/local-relay.ts:410-411 | In every reachable state no session has a grace above the relay's cap, nor an unlimited one under a finite cap |
| WholeRelay.NextKeeps | relay/src/local-relay.ts:254-299 | Every frame, completion, target chunk, flush, connect and resume of any session, and every event of the table, keeps this: what the table says a session pins is what its stream's buffers hold, and every stream is valid |
| WholeRelay.RunsAreTableRuns | relay/src/local-relay.ts:238-575 | Every run of the relay with its streams is a run of the table, so its bounds and the expiry theorem hold of it |
| WholeRelay.BuffersStayBounded | relay/src/local-relay.ts:254-270 | In every run the buffers of all detached sessions' streams together hold at most 16 MiB, and those of each session at most three windows |
| Holders.OnlyHoldersAttach | relay/src/local-relay.ts:343-391 | In the relay as a whole a session comes to a socket in one way only: by a resume on that socket that names the session and its origin, with a token the session knows and offsets in its windows; no other frame, timer, eviction or request does it |
| Holders.HoldersAreServed | relay/src/local-relay.ts:365-391 | Such a request is always served: the session is then on the asking socket without a timer, with the new token, the presented one as its previous token, and everything unacknowledged to be sent again |
| RelayServer.SessionTable.EnforceDetachedCap | relay/src/local-relay.ts:262-270 | The loop that counts the bytes down does what the specification says |
| RelayServer.SessionTable.AdmitConnect | relay/src/local-relay.ts:277-284 | The loop over the oldest sessions does what the specification says, and a refusal revokes none |
| RelayServer.SessionTable.DetachSession | relay/src/local-relay.ts:293-299 | Detaching records the time, arms the expiry for a finite grace and enforces the cap |
| Base64.OneTextPerPayload | relay/src/protocol.ts:196-216 | Each payload has exactly one accepted text, and the relay's shape test with re-encoding accepts exactly what a strict decoder does |
| Base64.ReencodesExactlyWhenStrict | relay/src/protocol.ts:212 | Re-encoding gives the text back exactly when no spare bit of a padded group is set |
| Base64.EncodedIsShaped | relay/src/protocol.ts:260-262 | An encoded payload has four characters per started group of three bytes and decodes to the payload |
| Json.ArrayRoundTrip | relay/src/protocol.ts:280 | Any list of integers, strings and nulls is printed so that the same list is parsed back |
| Codec.CodecRoundTrip | relay/src/protocol.ts:139-283 | Encoding succeeds exactly on well-formed frames, and what it prints decodes to the frame |
| Codec.DataWireShape | relay/src/protocol.ts:260-262 | The text of a data frame: kind, direction, offset in decimal, payload in base64 |
| Codec.BareWireShape | relay/src/protocol.ts:267-271 | The texts of the frames without fields |
| Codec.DecodedIsWellFormed | relay/src/protocol.ts:139-237 | Whatever text the decoder takes, the frame is well formed, so it can be encoded again |
| Codec.EncodeIsInjective | relay/src/protocol.ts:239-283 | Two frames never share a text |
| Codec.ControlFits | relay/src/protocol.ts:99-150 | No well-formed control frame exceeds 4096 code units |
| Codec.DataFits | relay/src/protocol.ts:101-141 | No well-formed data frame exceeds 349656 code units |
| Codec.GoReadsWhatTheRelaySends | engine/wsconn/wsconn.go:690-693 | Every frame the relay can send is within the Go side's limit of 350000 bytes |
| WireText.ConnectText | relay/src/protocol.ts:242-244 | The text of a connect frame and the exact ranges in which it has one: 2, "connect", host, port, requested grace or null |
| WireText.ReadyText | relay/src/protocol.ts:245-253 | The text of a ready frame and its ranges: 2, "ready", session id, token, limit, granted grace or null, cap or null |
| WireText.ResumeText | relay/src/protocol.ts:254-256 | The text of a resume frame and its ranges: 2, "resume", session id, token, clientAck, serverAck, in this order |
| WireText.ResumedText | relay/src/protocol.ts:257-259 | The text of a resumed frame and its ranges: 2, "resumed", clientAck, serverAck, new token |
| WireText.DataText | relay/src/protocol.ts:260-263 | The text of a data frame and its ranges: 2, "data", "client" or "server", offset, payload in base64 |
| WireText.AckText | relay/src/protocol.ts:264-266 | The text of an ack frame and its range: 2, "ack", "client" or "server", offset |
| WireText.BareTexts | relay/src/protocol.ts:267-272 | The texts of detach, close, ping and pong |
| WireText.ErrorTexts | relay/src/protocol.ts:273-275 | The texts of the error frame with each of the seven codes |
| WireText.NumberText | relay/src/protocol.ts:280 | Numbers stand in decimal without leading zeros, negative ones with a minus sign |
| WireText.CharText | relay/src/protocol.ts:280 | How each character stands in a string: the two-character escapes, the other controls in four hexadecimal digits, the rest as they are |
| WireText.PayloadText | relay/src/protocol.ts:260-262 | Three bytes are four characters, the most significant bits first |
| WireText.PayloadEnd | relay/src/protocol.ts:260-262 | One or two bytes at the end are two or three characters, padded with `=` |
| WireText.Alphabet | relay/src/protocol.ts:260-262 | The 64 characters of base64 in their order |
| WireText.DecodesExactly | relay/src/protocol.ts:139-237 | A text is decoded to a frame if and only if it is JSON for what the encoder prints of that frame, the frame is in its ranges and the text within 4096 code units, 349656 for data |
| WriteQueue.WritesAreAPrefix | engine/writequeue/writequeue.go:60-124 | Over all interleavings the bytes written are a prefix of the bytes accepted, the count is exactly what is pending and in flight while open, within maxBytes, and an error is reported at most once, on a closed queue |
| WriteQueue.NoLostWakeup | engine/writequeue/writequeue.go:90-112 | An open queue whose runner cannot move has written everything it accepted |
| WriteQueue.CloseDiscards | engine/writequeue/writequeue.go:78-88 | After closing only the chunk in flight can still reach the writer |
| WriteQueue.TakesWhatFits | engine/writequeue/writequeue.go:60-76 | A chunk is accepted if and only if the queue is open and the chunk fits under the limit; then it stands last, is counted, and the runner is signalled |
| WriteQueue.TakesTheOldest | engine/writequeue/writequeue.go:114-124 | The runner takes the oldest chunk, unless the queue is closed |
| WriteQueue.EverythingIsWritten | engine/writequeue/writequeue.go:90-112 | From every state of an open queue the runner alone, when no write fails, writes everything that was accepted and frees the whole limit |
| WriteQueue.EveryChunkIsWritten | engine/writequeue/writequeue.go:60-124 | Any chunks within the limit, offered with the runner in between, are all accepted and written in order |
| WriteQueue.Queue.Enqueue | engine/writequeue/writequeue.go:60-76 | Refused as closed or full exactly then, and otherwise appended, counted and signalled |
| WriteQueue.Queue.TakeNext | engine/writequeue/writequeue.go:114-124 | The oldest chunk, unless closed or empty |
| WriteQueue.Queue.Drain | engine/writequeue/writequeue.go:90-112 | The runner's inner loop, with other goroutines enqueuing and closing between its steps and any write failing part way, is a run of the state machine; it ends with everything accepted written, or closed, or with its one report on a closed queue |
| Download.KeptIsAPrefix | frontend/src/downloadStore.ts:19-32 | A persisted record's segments join to remote[0..committedBytes], every one full but possibly the file's last |
| Download.ReopensUnlessAShortFileIsComplete | frontend/src/downloadStore.ts:157-159 | A persisted record opens again unless it holds the whole file and the size is no multiple of the segment size |
| Download.ShortRecordDoesNotReopen | frontend/src/downloadStore.ts:157-159 | A kept record of a whole file of one byte does not open again |
| Download.KeptIsUsable | frontend/src/downloadStore.ts:131-145 | Without eviction a persisted record passes the check on its segments' sizes |
| Download.RecordIsUsable | frontend/src/downloadStore.ts:131-145 | The loop answers whether every segment is there and the sizes add up to the committed bytes |
| Download.SegmentedDownload.Write | frontend/src/downloadStore.ts:181-197 | Enough storage operations make it take the whole chunk; whatever operation fails, the persisted record stays a true prefix of what was handed over, never shrinks, and is at most one segment behind what was handed over before |
| Download.SegmentedDownload.CommitOpenSegment | frontend/src/downloadStore.ts:166-174 | Closing and recording a segment keeps the record true even when the page dies between the two |
| Download.SegmentedDownload.Finish | frontend/src/downloadStore.ts:199-204 | The whole is every byte handed over, and is there exactly when the storage operations last for committing what is open and reading every segment back; when they only last for committing, the record holds everything all the same |
| Download.SegmentedDownload.Abort | frontend/src/downloadStore.ts:206-214 | Aborting leaves the record and every file but that of the open segment, which goes if the storage lets it |
| Download.SegmentedDownload.Tail | frontend/src/downloadStore.ts:216-221 | The tail is the bytes of the file that end at the committed offset, unless reading the last segment fails |
| Download.DownloadInMemory | frontend/src/components/FilePanel.tsx:190-208 | Without usable storage an undisturbed download ends with the file exactly when it is at most 16 MiB |
| Download.RunLife | frontend/src/components/FilePanel.tsx:131-208 | One life: a record that opens is continued, the engine asked for what lies past its committed bytes with the tail before them; a record that does not open, or cannot be saved, is deleted and the file taken in memory. What is left can be trusted; committed bytes never decrease unless the record is discarded; with undisturbed reads the life ends with the file exactly when every segment can be read back, or, in memory, when it fits; and it leaves a record that does not open exactly when it committed the whole of a file with a short last segment and kept it |
| Download.DownloadInLives | frontend/src/components/FilePanel.tsx:131-208 | However many stops and resumes, the record left can be trusted and the life that finishes gives exactly the remote file; one undisturbed life finishes when the size is a multiple of 4 MiB or at most 16 MiB, and of two undisturbed lives in a row one finishes always |
| Download.CommittedButNotReadBack | frontend/src/components/FilePanel.tsx:131-208 | 16 MiB and one byte: a page that dies between its last commit and reading back makes the undisturbed life after it end with nothing, and only the next one ends with the file |
| Download.CancelWriter.Write | engine/remotefiles/remotefiles.go:332-349 | The writer passes on at most what is left of the size into the page and reports growth exactly when more was offered |
| Download.Download | engine/remotefiles/remotefiles.go:264-322 | A refused request hands on nothing; what is handed on is a prefix of the file from the offset, never past the size; a complete end means all of that was, with growth exactly when there was more; an undisturbed run ends complete, and handed on all of the size if and only if the file is still that long |
| Download.ShrunkFileEndsComplete | engine/remotefiles/remotefiles.go:309-322 | A file of two bytes that shrank to one ends as complete, and the page finishes with the one byte |
| Download.BeginsExactlyWhenTailFits | engine/remotefiles/remotefiles.go:265-305 | A download begins exactly for a regular file, from its beginning, or with size and time as expected where the file is some bytes up to the offset that end in the tail, and more after it |
| Download.ResumeRefusedExactlyWhenChangeIsSeen | engine/remotefiles/remotefiles.go:276-305 | A resume from what was kept of an earlier file goes on exactly when size and time are those the record was stamped with and the file agrees in the last 4096 bytes before the offset; otherwise it is refused, as changed or, past the end, as invalid |
| Download.RefusalsAre | engine/remotefiles/remotefiles.go:265-305 | Which refusal it is: invalid options, no regular file, or a changed file, each with its exact condition |
| Download.TailIs | frontend/src/downloadStore.ts:216-221 | The bytes compared are the last 4096 before the offset, or all of them when there are fewer |
| Download.RunOpened | frontend/src/components/FilePanel.tsx:131-185 | The life of a record that opens, over a file that may not be the one the bytes were kept of: it goes on exactly when the file looks the same, and what it leaves or ends with is what was kept, continued with that file |
| DownloadVersions.RunVisit | frontend/src/components/FilePanel.tsx:131-208 | A life over some version of the file: what ends it is that version if and only if the bytes kept before are that version's too |
| DownloadVersions.VersionsInLives | frontend/src/components/FilePanel.tsx:131-245 | Over any lives, and versions that size and time tell apart and that do not come back, the file that ends the download is exactly the version its last life saw |
| DownloadVersions.ReturningFileIsSpliced | frontend/src/components/FilePanel.tsx:226-245 | A record stamped from the listing of a file that was replaced before the start and came back later: an undisturbed resume ends with a splice of both versions |
| Upload.Upload | engine/remotefiles/remotefiles.go:139-215 | Whatever other clients do, before any operation, to any path but the temporary one: this upload changes the name not at all, or to the complete upload with a replaced file's bits, or (without posix-rename) by removing what was there, and then the complete upload is at the reported temporary name; a name Lstat saw free is never overwritten; the temporary file stays in no other case unless the server failed the removal itself; and without failures or others at the name the outcome is exactly the first test that fails, or success |
| Upload.Stage | engine/remotefiles/remotefiles.go:157-179 | The staged file is complete when staging succeeds, nothing else is changed, and on a server that does not fail the error is exactly the first test that fails |
| Upload.Place | engine/remotefiles/remotefiles.go:181-214 | The rename steps, with permission bits kept and other clients acting between them: the name is changed as reported, and the staged file is still there unless it was put in place |
| Upload.BadPathMeans | engine/remotefiles/remotefiles.go:140-142 | A name is refused if and only if it is nothing but slashes or its last element is a single dot |
| Touch.RecordTypedText | frontend/src/terminalTouch.ts:25-38 | The loop records as the specification does |
| Touch.RecordIsTheBuffer | frontend/src/terminalTouch.ts:25-38 | After an input a usable record is the line editor's buffer exactly when the input is not a paste with a DEL in it |
| Touch.PastedDelIsNotErased | frontend/src/terminalTouch.ts:25-38 | A concrete paste after which record and buffer differ |
| Touch.RecordFollowsTheEditor | frontend/src/terminalTouch.ts:25-38 | Over a whole session of other inputs a usable record is the editor's buffer |
| Touch.RecordedPositions | frontend/src/terminalTouch.ts:41-63 | The loop walks the boundaries as the specification does |
| Touch.BoundariesAdvance | frontend/src/terminalTouch.ts:41-63 | Boundaries strictly advance over the screen, wide cells and full rows included |
| Touch.ScreenShowsTheText | frontend/src/terminalTouch.ts:50-60 | After each boundary the screen shows the next recorded character |
| Touch.OneBoundaryPerPoint | frontend/src/terminalTouch.ts:93-101 | A point, the start of a wrapped row included, denotes at most one boundary |
| Touch.KeysDeleteTheRange | frontend/src/terminalTouch.ts:105-110 | The keys take the selected characters out and leave the cursor where they began |
| Touch.SelectionEditDeletesTheSelection | frontend/src/terminalTouch.ts:72-111 | When keys are sent, running them on an editor holding the record removes exactly the selection |
| Touch.EditsExactlyWhenTheScreenAgrees | frontend/src/terminalTouch.ts:81-106 | Keys are sent exactly when the screen shows the record and selection and cursor stand at its boundaries |
| Touch.KeysAre | frontend/src/terminalTouch.ts:72-111 | The keys themselves: a cursor key for each character between the cursor and the selection's end, ESC [ or ESC O by the application's mode and then D or C, and one DEL for each selected character |
| Touch.GivesUpExactly | frontend/src/terminalTouch.ts:26-36 | The record is given up if and only if what was typed, between the marks of a paste or all of the input, has a control other than DEL |
| Touch.RecordsEachCharacter | frontend/src/terminalTouch.ts:32-37 | Each DEL takes the last character off the record and every other character is added at its end |
| Touch.RecordsWhatWasTyped | frontend/src/terminalTouch.ts:27-30 | What is recorded of a bracketed paste is the text between its marks |
| Touch.BoundaryIs | frontend/src/terminalTouch.ts:46-60 | The boundary after a character is past its cell, in the next row if this one is full and that one wraps |
| Touch.PointDenotes | frontend/src/terminalTouch.ts:94-101 | A point denotes a boundary exactly when it is it, or starts a wrapped row whose row before is full up to it |
| Trimming.TrimMeans | engine/vault/document.go:134-140 | Trimming cuts blanks off both ends and nothing else |
| VaultDocument.ValidIsCanonical | engine/vault/document.go:201-224 | A stored entry passes exactly when it is trimmed, in range, and has no password without a username |
| VaultDocument.UpsertKeepsValid | engine/vault/document.go:133-199 | Upserting into a valid document gives a valid one |
| VaultDocument.ReachableIsValid | engine/vault/document.go:83-116 | Every document reachable by edits passes every check on stored entries |
| VaultDocument.UpsertIsAMapUpdate | engine/vault/document.go:133-199 | Upsert stores the merged entry, changes no other id and keeps the order; absent fields keep the saved password and preferences |
| VaultDocument.DeleteIsAMapRemoval | engine/vault/document.go:234-244 | Delete takes out the one entry and moves nothing else |
| VaultDocument.FullUpsertIsIdentity | engine/vault/document.go:201-224 | Every stored entry is a fixed point of Upsert |
| VaultDocument.RedactedHidesOnlySecrets | engine/vault/document.go:246-260 | The list for the page tells documents apart by everything except the text of passwords |
| VaultDocument.PasswordsMatchTheList | engine/vault/document.go:262-268 | A password is found exactly where the list says so, never without a username |
| VaultDocument.ParseDocument | engine/vault/document.go:83-116 | The loop with its set of ids accepts exactly the documents within the size whose entries are valid and unique |
| VaultText.SealAcceptsExactlyWhenTextFits | engine/vault/session.go:70-107 | Seal accepts a document exactly when its JSON text, encrypted, in base64 and with the envelope's own bytes, is within the blob's limit |
| VaultText.ReachableOpensExactlyWhenItFits | engine/vault/document.go:83-116 | A document reachable by edits opens again exactly when its JSON text is within 1 MiB |
| VaultText.SealedAlwaysOpens | engine/vault/session.go:95-107 | Whatever Seal accepts of a reachable document, its JSON text is within the size limit on opening and its entries pass every check |
| VaultDecode.DocumentRoundTrip | engine/vault/document.go:83-120 | What is printed of a document, every string escape and omitted field included, is read as the same document, given that the texts of its line heights can be read |
| VaultDecode.StepsReadBack | engine/vault/document.go:226-232 | A concrete printer and reader of decimals fit each other on every height that is a whole number of twentieths |
| VaultDecode.SealedComesBack | engine/vault/session.go:51-107 | Whatever Seal accepts of a reachable document comes back: its text is read as that document, which passes every check on opening, given that the texts of its line heights can be read |
| VaultDecode.SealedStepsComeBack | engine/vault/session.go:51-107 | The same for every reachable document whose heights are whole twentieths, with the concrete printer and reader and nothing assumed of them |
| VaultDecode.OneHeightComesBack | engine/vault/document.go:118-120 | One saved entry with a height of 1.05: printed as 1.05 and read back |
| VaultText.FullVaultIsRefusedBySeal | engine/vault/session.go:104-106 | 256 accepted edits make a valid document whose JSON text is too long to open, and Seal refuses it under all parameters |
| VaultText.EntryLetters | engine/vault/document.go:26-45 | The text of an entry: its fields by name and in order, username, password and terminal left out when there are none |
| VaultText.CharLetters | engine/vault/document.go:118-120 | How Go writes a character: the five that HTML or JavaScript would read in hexadecimal, the others as JSON does |
| VaultText.EnvelopeLetters | engine/vault/envelope.go:67-76 | The text of the sealed blob: version, kdf and its three parameters, salt, nonce and ciphertext in base64 |
| VaultDocument.Document.Upsert | engine/vault/document.go:133-199 | The method does what the specification says, and an error changes nothing |
| VaultDocument.Document.Delete | engine/vault/document.go:234-244 | The method does what the specification says |
| VaultDocument.Document.Clone | engine/vault/document.go:122-131 | A copy that later edits do not reach |
| VaultDocument.Document.FindIndex | engine/vault/document.go:270-277 | The loop finds the first entry with the id |
| VaultEdits.UpsertAnswers | engine/vault/document.go:133-199 | An update is refused by the first test it fails, in their order and with their limits, and changes nothing; otherwise its entry stands where the id was, or at the end, with trimmed texts, absent password and preferences kept, present ones replaced or cleared, and no password without a username |
| VaultEdits.DeleteAnswers | engine/vault/document.go:234-244 | Delete takes out the first entry with the id and leaves the others in order; without one it changes nothing |
| VaultEdits.ListShows | engine/vault/document.go:246-268 | The list has, entry by entry, id, nickname, host, port, username, whether there is a password, and the preferences; and the password found under an id is the saved one |
| VaultEdits.PrefsMean | engine/vault/document.go:226-232 | Preferences are in range exactly with a size of 8 to 32 and a height of 1 to 2 within 1e-9 of a whole number of twentieths |
| VaultEdits.Blanks | engine/vault/document.go:134-140 | The 25 characters that are trimmed |
| VaultTabs.NoLostUpdate | frontend/src/vault/useVault.ts:65-178 | For any tabs and interleaving the stored values form a chain of creations, single edits, password changes and resets, each made on the value it replaces, and an idle unlocked tab's engine holds the document of the blob it loaded |
| VaultTabs.StorageLinks | frontend/src/vault/vaultStore.ts:73-87 | A write replaces exactly the value its tab's document was derived from |
| VaultTabs.EditStaysListed | frontend/src/vault/vaultEngine.ts:88-100 | An accepted edit with checked input can always be listed, so no save ends between engine and storage |
| VaultTabs.EngineEditLinks | engine/vaultjs.go:138-221 | What the engine seals is linked to the loaded blob by one edit, can be listed and is what the engine holds; a failed edit changes nothing |
| VaultTabs.FailedSaveLocksUntilReopened | frontend/src/vault/useVault.ts:85-97 | In every run, once a save of a tab fails its comparison, finds no room or is not confirmed, the tab is emptying its engine, or has it empty and does not show the vault, and tries no other save, until it opens or creates a vault again; a failed comparison writes nothing |
| VaultTabs.VaultStore.SaveVaultBlob | frontend/src/vault/vaultStore.ts:73-78 | Compare, then overwrite, in one turn |
| VaultTabs.VaultStore.ClearVaultBlob | frontend/src/vault/vaultStore.ts:80-87 | Compare, then remove, in one turn |
| VaultTabs.VaultEngine.Edit | engine/vaultjs.go:138-221 | Clone, edit, seal, and only then commit: there is a blob exactly when the engine is unlocked, the document takes the edit and Seal the text; it is then the document with that edit under the same key, which is what the engine holds, and otherwise nothing changes |
| VaultTabs.VaultEngine.ChangePassword | engine/vaultjs.go:223-259 | The entered password is tried on a fresh sealing of the document: if it does not open, or Seal refuses, nothing changes; otherwise the same document is sealed so that exactly the new password opens it |
| VaultEdits.SealsTheEdit | engine/vaultjs.go:138-221 | An edit is sealed if and only if the engine is unlocked and the document takes it; what is sealed, and what the engine then holds, is the document with that edit under the same key |
| VaultEdits.TheEditIsTheWrite | frontend/src/vault/useVault.ts:65-178 | In every run, whatever other tabs do in between, what a tab writes after it was asked for an edit is that edit of the value it replaces, under the same key, and one that the document takes; otherwise the stored value stays |
| VaultEdits.EditsAndSaves | frontend/src/vault/useVault.ts:85-146 | Undisturbed, an edit the document takes ends stored and shown; one it does not take leaves the tab and the stored value as they were |
| VaultEdits.StaleSaveLocks | frontend/src/vault/useVault.ts:85-97 | A save on a value another tab has replaced writes nothing and ends with the tab locked |
| VaultEdits.CreatesAnEmptyVault | frontend/src/vault/useVault.ts:99-109 | Undisturbed, creating stores an empty vault under the new password and shows it |
| VaultEdits.UnlocksWhatIsStored | frontend/src/vault/useVault.ts:111-125 | Unlocking shows what is stored now, whichever tab stored it, or finds that there is nothing |
| VaultEdits.ChangesThePassword | frontend/src/vault/useVault.ts:147-153 | Undisturbed, a changed password ends with the same document stored under the new one; with a wrong present password nothing changes |
| VaultEdits.Locks | frontend/src/vault/useVault.ts:155-163 | Locking empties the engine and leaves the stored value |
| VaultEdits.Resets | frontend/src/vault/useVault.ts:167-178 | A reset takes the stored value away when it is the one the tab loaded |

## Left out

- Offsets are unbounded integers in the two ends; the limit of 2^53 - 1 is modelled in the codec and assumed in `SentFrames.EverySentFrameEncodes` only.
- World.ExactlyOnce: a run starts when the target has connected and `ready` is on its way; connecting is not modelled.
- Sending a frame on an open socket never throws; a failed send drops the socket instead.
- Waiting: the blocking loops of `read` and `write` are modelled one turn at a time, and a turn may come at any moment.
- Backoff lengths, heartbeats, silence timeouts and read or write deadlines are drops, detaches and reopens at any time.
- The race in `open` between its deadline and a `resumed` frame that arrives with it.
- The limit on failed resumes per address and the allowlist of targets; a refused connect is a socket that plays no role.
- Random ids and tokens: session ids are fresh numbers in `RelayServer`; tokens are arbitrary in the streams' theorems.
- `ws.bufferedAmount` and the readiness of the relay's socket are one question the flush loop asks before each frame.
- The v1 relay path and the v1 `Conn` are only a count of live tunnels in `RelayServer`.
- HonestRest.EveryRunSettles: the pair is not dropped while it settles; that a network keeps delivering is not promised.
- Codec.CodecRoundTrip: strings are sequences of Unicode scalar values, so lone surrogates are not modelled.
- Json.ArrayRoundTrip: other spellings of the same JSON (white space, fractions, exponents, surrogate-pair escapes, nesting) are refused here although the relay's parser takes them.
- Base64.OneTextPerPayload: line breaks inside base64 text, which Go's decoder skips, are not modelled.
- The v1 connect frame's own codec.
- WriteQueue.Queue.Close: the mark under the lock and the signal after it are two steps in the state machine and one in the class.
- DownloadVersions.VersionsInLives: a version does not change while it is read.
- Download.RunLife: eviction of stored segments, deletion of old records and a failure of the check on the segments' sizes, which leaves everything as it was, are not modelled.
- Download.SegmentedDownload.CommitOpenSegment: a storage operation succeeds or leaves everything as it was.
- Download.Download: progress reports, and files whose content changes while it is read, are not modelled.
- Upload.Upload: nobody else knows the random temporary name; a failed server operation leaves the server as it was; progress reports are not modelled.
- Touch.SelectionEditDeletesTheSelection: the mirrored DOM rows, `bufferRange` and the gestures are not modelled; the terminal buffer is a grid of cells with widths and wrap flags.
- VaultDecode.DocumentRoundTrip: reads the layout Go prints; Go's decoder also takes white space, other orders of the fields, repeated fields and other spellings. The text of a number and its reader are parameters, required to fit on the document's own line heights; `VaultDecode.StepsReadBack` gives a pair that does for every height the page offers.
- VaultText.SealAcceptsExactlyWhenTextFits: the ciphertext is any bytes of the right number.
- VaultDocument.ParseDocument: starts from the decoded entries and the length of the text; Go's JSON decoder is not modelled, and the line height is a real number, never NaN or infinite.
- VaultDocument.Document.Clone: the terminal preferences are values, so the copy through their pointer is not modelled.
- VaultTabs.NoLostUpdate: sealing is idealised (a blob determines key and document), junk under the storage key is not modelled, and actions begin only where the page shows their form (frontend/src/components/SavedHosts.tsx:59-63).
- VaultTabs.FailedSaveLocksUntilReopened: emptying the engine after a failed save always succeeds; emptying it on lock or reset may fail.
- Cryptography, SSH, SFTP packets, IndexedDB and origin-private files.
- React components, terminal rendering, themes, clipboard, toasts, settings, the static file server and configuration.
