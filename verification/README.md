# Models of the Linux samples

This project models nine pieces of a collection of small Linux system-programming samples and proves
properties of them in Dafny. `dafny verify dfyconfig.toml` checks all of it.

Each piece has a functional side, which says what one step, one request or one loop pass does, and
where the C, Rust or assembly code works in place, a class or a method over arrays and fields whose
contract ties it to that function. System calls are steps with any outcome their documentation allows;
their results are parameters. Properties of whole runs are proved over every sequence of steps.

| file | what it models |
|---|---|
| `MachineWords.dfy` | 32-bit words, signed and unsigned |
| `Wrappers.dfy`, `Slots.dfy` | a value that may be missing; what the slot tables of the servers have in common |
| `Wire.dfy`, `DrmProto.dfy` | `snprintf` and `sscanf` as the display protocol uses them; its requests and responses |
| `DrmServer.dfy` | the display server: slot table, five command handlers, poll loop |
| `DrmClient.dfy` | the two display clients: their command variable and communication loop |
| `DrmProtocol.dfy` | server, any number of clients and slots, connections and display as one transition system |
| `DrmRounds.dfy` | the server's poll loop as steps of that system |
| `DrmShowing.dfy` | runs of it in which a session takes place |
| `DrmNesting.dfy` | display sessions that nest on one CRTC, framebuffers that come and go, and what is restored |
| `DrmSessions.dfy` | the two together: what nesting means for runs of the whole system |
| `FrameHandoff.dfy` | the compare-and-swap word that guards the pixel buffer between producer and GL loop |
| `EchoTable.dfy`, `EchoPoll.dfy`, `EchoSelect.dfy` | the poll and select echo servers, and the abstract server both refine |
| `Utf8.dfy`, `MioEcho.dfy`, `MioLoop.dfy` | the edge-triggered echo server: UTF-8, its steps, its arms in place |
| `MioPauses.dfy`, `MioClosing.dfy` | which input that server loses: streams that pause inside a character, clients that close early |
| `RiscV.dfy`, `Mips.dfy` | small instruction-level machines and the assembly routines on them |
| `VideoSink.dfy` | the two double-buffered video sinks |
| `RateLimiter.dfy` | the accelerometer rate limiter |
| `TwoSemaphores.dfy` | two processes taking turns on one file offset |
| `ColorBars.dfy` | colour-bar drawing with packed stores |
| `EventWalk.dfy` | the walk over a buffer of inotify events |

## Where the code does less than one might expect

These are stated with the exact condition, or with a concrete case:

- The edge-triggered echo server drops what it has drained when that ends inside a UTF-8 character, and
  goes on: a well-formed stream that pauses there comes back with holes (`MioPauses.SplitCharacterIsLost`).
  It keeps all it reads, in every run with given arrivals, exactly when each arrival is whole characters
  (`MioPauses.ArrivalsDecide`). A stream that ends there makes it panic.
- The same server removes a client in the event in which it finds the end of the file, with whatever that
  event brought (`MioClosing.EndOfFileDropsTheEvent`): a peer that says hi and shuts down writing at once
  hears nothing (`MioClosing.HiIsNotEchoed`). A peer that closes only when all it sent has come back loses
  nothing, as long as no write fails (`MioClosing.PatientPeersGetEverything`).
- A CRTC that was off when the first session opened stays on that client's buffer after its STOP, because
  nothing is restored when the saved mode is not valid; it goes off again when the client ends and its
  framebuffer is removed (`DrmNesting.NestedSessionsRestore`; from any such state,
  `DrmNesting.DarkScreenStaysOn`; at the end, `DrmSessions.EverybodyGoneRestores`).
- Sessions that overlap without nesting end in a race: with every request answered OK the CRTC is off in
  the end, whatever it showed before (`DrmNesting.OverlapLosesTheScreen`); if the first client has ended
  in time, the second one's STOP fails and the screen survives (`DrmNesting.OverlapWithEarlyExit`).
- A mode name of 20 characters or more overruns the server's record (`DrmProto.LongNamesOverrun`); it is
  the only thing by which clients that follow the protocol can break the server
  (`DrmProtocol.CrashesOnlyOverLongNames`).
- The server's `magic` and `command` outlive a message: one that does not begin with a number runs the last
  command, of whichever client, again on the slot it came from (`DrmServer.HeaderlessRepeats`).
- A CRTC request whose read-back fails is answered ERROR although the display has changed
  (`DrmServer.ErrorLeavesDisplay`).
- In the poll server, a client event without POLLIN and POLLERR (a bare POLLHUP, say) leaves the ready
  count one too high; a new client in the first unpolled slot with a stale event is then served although
  nothing was reported for it (exactly when, `EchoPoll.RoundServes`; a run from the start,
  `EchoPoll.UnreportedIsServed`). POSIX allows such an event; Linux sets POLLIN along with POLLHUP on a TCP
  socket, and then the count is right.
- `sum` and `sum2` never return for 2^32-1, and the expression in their test differs from the
  true sum once n(n+1) has bit 32 set (`RiscV.SumHaltsExactlyBelowTheTop`, `RiscV.TestExpressionAgrees`).
- `fib` reads its argument as signed and returns 1 for 0 and for 2^31 and above (`Mips.FibReturnsFibonacci`).
- At 16 bits per pixel an odd width shifts the rows and leaves the end of the screen unpainted
  (`ColorBars.PackedStoresRightWhenEven`).
- The limiter's 100 ms are between truncated milliseconds; in real time it is 99.000001 ms
  (`RateLimiter.RealSpacing`).
- After `stop`, a video sink's `setcaps` still answers true without allocating anything, because
  `enabled` is never reset (`VideoSink.Sink.SetCaps`).
- A plane sink reads nothing back at setup and only switches its plane off in `stop`: once a frame was
  shown, what the plane showed before is gone (`VideoSink.StopRestores`).
- A mode name with white space, or an empty one, does not survive the wire (`DrmProto.CrtcRoundTrip`).

## Model

| member | source | states |
|---|---|---|
| `Wire.DecimalRoundTrip` | drm-tests/drm_server.c:177 | `%d` reads back every 32-bit value that `%d` wrote, including those written with a minus sign, and stops at the first character that is no digit |
| `Wire.WordRoundTrip` | drm-tests/drm_server.c:205-207 | `%s` reads back a non-empty word without white space, up to the next white space |
| `Wire.ScanfThroughPrintf` | drm-tests/drm_client_crtc.c:262-263 | scanning with a format that continues past a printed one first gives back the printed arguments, then goes on with the rest of the format on the rest of the text |
| `Wire.PrintfPrefix` | drm-tests/drm_client_crtc.c:262-263 | printing with a concatenated format is the concatenation of the two outputs |
| `Wire.SnprintfCuts` | drm-tests/drm_client_plane.c:295-296 | what is printed into a buffer is the text or its beginning, and leaves room for the NUL |
| `MachineWords.WrapToSigned` | drm-tests/drm_client_crtc.c:238-246 | a 32-bit word printed as a signed number and stored again is the same word |
| `DrmProto.EncodeIsPrintf` | drm-tests/drm_client_crtc.c:262-263 | the text of a CRTC request is the output of the client's six-field format |
| `DrmProto.HeaderRoundTrip` | drm-tests/drm_server.c:177 | the two-number scan finds magic and command in every request of every kind |
| `DrmProto.CrtcNumbersRoundTrip` | drm-tests/drm_server.c:205-207 | all five numbers of a CRTC request are recovered, for all 32-bit values and any mode name |
| `DrmProto.CrtcRoundTrip` | drm-tests/drm_server.c:205-207 | the mode name is recovered into its 20-byte field too if and only if it is non-empty, has no white space and is shorter than 20 characters |
| `DrmProto.LongNamesOverrun` | drm-tests/drm_proto.h:107 | the scan writes past the end of the mode-name field exactly when the name begins with a word of 20 characters or more; a clean name of 20 characters is such a case |
| `DrmProto.PlaneRoundTrip` | drm-tests/drm_server.c:265-267 | all nine numbers of a PLANE request are recovered, for all 32-bit values |
| `DrmProto.ResponseRoundTrip` | drm-tests/drm_client_crtc.c:238 | a client recovers magic and value of every response |
| `DrmProto.RequestFits` | drm-tests/drm_client_plane.c:295-296 | no request is cut by the 1025-byte transmit buffer (mode names shorter than 32 characters, the kernel's limit) |
| `DrmProto.TextsOnTheWire` | drm-tests/drm_client_crtc.c:188-198 | messages as they stand on the wire, character by character: headers, a negative number, a whole CRTC request, both replies |
| `Slots.FirstFree` | drm-tests/drm_server.c:131-138 | the slot taken is free and no earlier slot is (the echo servers search their tables the same way) |
| `DrmServer.FirstNamedFinds` | drm-tests/drm_utils.c:307-316 | the look-up of a mode by name succeeds if and only if some mode has that name, and returns one that has |
| `DrmServer.FindModeFinds` | drm-tests/drm_utils.c:307-316 | the look-up for a connector finds the first mode of its list that has the name, and fails exactly when it cannot ask or none has |
| `DrmServer.ReadyAre` | drm-tests/drm_server.c:150-156 | the slots a scan is to serve are the occupied ones that were reported, each once, in order |
| `DrmServer.ScanServesReady` | drm-tests/drm_server.c:150-344 | whatever connections close on the way, a scan with a sufficient event count serves every ready occupied slot, once and in order |
| `DrmServer.RoundServesReported` | drm-tests/drm_server.c:104-344 | a poll round serves exactly the slots `poll` reported, also when a new client takes a slot in the same round |
| `DrmServer.RoundGoesOn` | drm-tests/drm_server.c:102-346 | the loop ends exactly when `accept` fails or a request has broken the server |
| `DrmServer.NewClientIsPlaced` | drm-tests/drm_server.c:131-143 | a new descriptor is in the lowest free slot afterwards and every other slot is as before, or nothing changes when none was free |
| `DrmServer.SlotIsServed` | drm-tests/drm_server.c:158-341 | a request read from a slot in a round is answered by the verdict of its calls on that slot's record; a failed or empty read frees that slot and does nothing else |
| `DrmServer.MessageStaysInItsSlot` | drm-tests/drm_server.c:177-341 | whatever text is read from a slot, no other record changes |
| `DrmRounds.RoundIsRun` | drm-tests/drm_server.c:102-345 | a pass of the poll loop over the arrays is a run of the whole system: the accept if there is one, then for each served slot, in order, the service or hang-up of the client whose connection it is |
| `DrmRounds.ScanRuns` | drm-tests/drm_server.c:150-344 | the same of the slot loop from any slot on |
| `DrmRounds.RoundReaches` | drm-tests/drm_server.c:102-345 | so after any run of the system from the start, a pass of the loop reaches a state that a run reaches: what is proved of runs holds of the loop |
| `DrmServer.ScannedCrtcNumbers` | drm-tests/drm_server.c:205-207 | scanning a CRTC request that fits changes just the identifiers and the mode name of the record, to the client's own values |
| `DrmServer.ScannedPlaneNumbers` | drm-tests/drm_server.c:265-267 | scanning a PLANE request changes just the seven plane fields of the record, to the client's own values |
| `DrmServer.ShortRequestKeepsRest` | drm-tests/drm_server.c:205-267 | a request cut short leaves the fields it does not reach as they were |
| `DrmServer.CrtcRequestEffect` | drm-tests/drm_server.c:200-259 | the whole effect of a CRTC request that fits, at whichever step it stops: record, saved and current CRTC, and the display, told from the request, the list of modes and the display |
| `DrmServer.OkCrtcShows` | drm-tests/drm_server.c:205-237 | after an OK CRTC request the CRTC it names shows its framebuffer at 0,0 in the first mode of its connector that has the name it gave, nothing else has changed on the display, and the record has saved what was there |
| `DrmServer.PlaneRequestEffect` | drm-tests/drm_server.c:261-288 | a PLANE request puts its seven numbers in the record, and its plane shows its framebuffer at its place and size (sizes in 1/65536 for the source, 32 bits wide), or is off for framebuffer 0; or nothing changes on the display when a call fails |
| `DrmServer.AuthEffect` | drm-tests/drm_server.c:181-198 | an OK AUTH leaves nothing of an earlier client in the record, no saved CRTC either; without the kernel's agreement the record stays |
| `DrmServer.UnknownCommandEffect` | drm-tests/drm_server.c:331-341 | any other command is answered ERROR and changes no record and no display |
| `DrmServer.HeaderlessRepeats` | drm-tests/drm_server.c:177-178 | a message without a number at its front runs the command of the message before it, with that magic, on its own slot |
| `DrmServer.ServeEncoded` | drm-tests/drm_server.c:177-341 | serving the text of a request is running its own command with its own magic; only the record of its slot changes |
| `DrmServer.ReplyTellsTheOutcome` | drm-tests/drm_server.c:177-341 | each request gets a reply with its own magic, OK exactly when every kernel call and look-up it needs succeeded (its framebuffer exists, among others); the server crashes exactly on a CRTC_STOP without a saved CRTC and on a mode name that overruns its field |
| `DrmServer.HandlingOutcome` | drm-tests/drm_server.c:180-333 | each handler ends OK exactly when all its calls succeeded, and in undefined behaviour exactly in those two cases |
| `DrmServer.ErrorLeavesDisplay` | drm-tests/drm_server.c:200-341 | an ERROR reply means an unchanged display, except for a CRTC request of which only the read-back failed: that CRTC already shows the client's buffer |
| `DrmServer.CrtcStopDisplay` | drm-tests/drm_server.c:290-310 | a CRTC_STOP puts the saved state back whole, framebuffer included, or changes nothing when that is gone |
| `DrmServer.PlaneStopDisplay` | drm-tests/drm_server.c:312-329 | a PLANE_STOP switches the recorded plane off or changes nothing |
| `DrmServer.ServingKeepsLit` | drm-tests/drm_server.c:177-341 | no request makes or removes a framebuffer, and what is on keeps showing one that exists |
| `DrmServer.Server.constructor` | drm-tests/drm_server.c:93-98 | a server starts with every slot free |
| `DrmServer.Server.Authenticate` | drm-tests/drm_server.c:181-198 | the record is cleared and given the magic, or left alone; no other record changes |
| `DrmServer.Server.StartCrtc` | drm-tests/drm_server.c:200-259 | the in-place steps leave exactly the record, display and verdict of the CRTC command, at whichever step they stop |
| `DrmServer.Server.StartPlane` | drm-tests/drm_server.c:261-288 | likewise for the PLANE command |
| `DrmServer.Server.StopCrtc` | drm-tests/drm_server.c:290-310 | likewise for the CRTC_STOP command |
| `DrmServer.Server.StopPlane` | drm-tests/drm_server.c:312-329 | likewise for the PLANE_STOP command |
| `DrmServer.Server.HandleMessage` | drm-tests/drm_server.c:177-341 | one message moves the whole server state as `ServeMessage` says |
| `DrmServer.Server.AcceptClient` | drm-tests/drm_server.c:131-143 | a new descriptor goes into the first free slot, and nowhere if there is none |
| `DrmServer.Server.ServeReady` | drm-tests/drm_server.c:158-341 | a failed or empty read frees the slot, anything else is handled as a message |
| `DrmServer.Server.ScanSlots` | drm-tests/drm_server.c:150-344 | the slot loop with its running event count ends in the state, and serves the slots, of `Scan` |
| `DrmServer.Server.PollRound` | drm-tests/drm_server.c:104-344 | one pass of the loop over the arrays is one `Round`, including the passes that end the loop |
| `DrmClient.ReplyMovesClient` | drm-tests/drm_client_crtc.c:227-303 | a reply with another magic is only used up; anything but OK ends the client; OK after AUTH writes the opening request, with the client's own identifiers, OK after that leaves the picture on the display, and OK after the STOP ends it |
| `DrmClient.FirstAndLastMessage` | drm-tests/drm_client_crtc.c:188-294 | the first message is AUTH with the client's magic and the one after the key press the STOP of its kind; on a closed connection the client ends |
| `DrmClient.ShortReplyEndsClient` | drm-tests/drm_client_crtc.c:238-244 | a reply without two numbers ends the client |
| `DrmClient.ClientLoop.constructor` | drm-tests/drm_client_crtc.c:59-76 | a client starts unconnected |
| `DrmClient.ClientLoop.WriteRequest` | drm-tests/drm_client_crtc.c:261-269 | the request is appended to the connection, or the client ends when the connection is gone |
| `DrmClient.ClientLoop.SendMagic` | drm-tests/drm_client_crtc.c:188-198 | the client's first message is AUTH with its magic |
| `DrmClient.ClientLoop.SendStart` | drm-tests/drm_client_plane.c:292-304 | the session's opening request carries the client's own parameters and sets its command |
| `DrmClient.ClientLoop.SendStop` | drm-tests/drm_client_crtc.c:284-294 | the STOP request that matches the kind of session |
| `DrmClient.ClientLoop.ReadReply` | drm-tests/drm_client_crtc.c:227-303 | one reply moves the client as `Receive` says: another's magic is skipped, a bad or negative reply ends it, OK goes on to the next command |
| `DrmProtocol.StopRestoresOwnCrtc` | drm-tests/drm_server.c:181-329 | in every run, a CRTC_STOP finds a non-null saved CRTC that the CRTC request of that same connection, served in that slot and answered OK, saved from the CRTC it names; the display becomes that saved state or stays; no crash, even across slot reuse |
| `DrmProtocol.StopDisablesOwnPlane` | drm-tests/drm_server.c:261-329 | in every run, a PLANE_STOP disables the plane that this connection's own PLANE request named, and nothing else; that request was answered OK, so its calls had succeeded |
| `DrmProtocol.RunsInLockstep` | drm-tests/drm_client_crtc.c:188-303 | in every run at most one message is in flight per connection over both directions, every waiting reply has the client's magic, and requests served, sent and answered balance |
| `DrmProtocol.RepliesTellTheTruth` | drm-tests/drm_server.c:177-341 | in every run, every request read is one its client encoded, and its one reply carries the magic and says OK exactly when all its kernel calls and look-ups succeeded |
| `DrmProtocol.CrashesOnlyOverLongNames` | drm-tests/drm_server.c:290-310 | no run of the clients, however interleaved with accepts, hang-ups and kernel failures, reaches the null dereference; a run that breaks has a client whose mode name overruns the record |
| `DrmProtocol.ServingLongNameCrashes` | drm-tests/drm_server.c:205-207 | in every run, serving a request breaks the server if and only if it is the CRTC request of a client with such a name |
| `DrmProtocol.StepKeepsInv` | drm-tests/drm_server.c:102-345 | every step of any client, of the server, or of both keeps the invariant of the whole system, or breaks the server over a mode name |
| `DrmProtocol.ServiceIsGood` | drm-tests/drm_server.c:177-341 | serving the request a client's `command` stands for touches no other record, answers with its magic and the verdict of its calls, and on an OK opening leaves its identifiers in the record |
| `DrmProtocol.ClientReceives` | drm-tests/drm_client_crtc.c:227-303 | a waiting client never finds a malformed reply or a foreign magic |
| `DrmShowing.SessionTakesPlace` | drm-tests/drm_client_plane.c:191-344 | a client of either kind that connects while a slot is free, and whose calls the kernel grants, has a run in which it is accepted, has its picture on its CRTC or plane, stops and is gone; every CRTC then shows what it showed before, a plane is off, its slot is free and its framebuffer gone |
| `DrmShowing.OneOfEachKind` | drm-tests/drm_client_crtc.c:188-311 | from the start there is a run with a whole session of a CRTC client and one of a plane client |
| `DrmNesting.NestedSessionsRestore` | drm-tests/drm_server.c:200-310 | properly nested sessions on a CRTC, to any depth, with clients that take their framebuffers with them when they end, leave buffer, position and mode as before the outermost one if and only if the CRTC had a valid mode then, or no client buffer is left on it; that is told from requests and framebuffers alone |
| `DrmNesting.NestedUnwinds` | drm-tests/drm_server.c:200-310 | from any stack of open sessions, the rest of a nested run unwinds to the state under the outermost one, whoever removes which framebuffer meanwhile |
| `DrmNesting.LeftOnIsTheBase` | drm-tests/drm_client_crtc.c:310-311 | the framebuffer left under the sessions is that of the first session to close over a dark CRTC, until its client removes it |
| `DrmNesting.RemovalKeepsStacked` | drm-tests/drm_client_plane.c:343-344 | a client that ends takes its framebuffer off whatever shows it; if no open session uses it, the sessions stand as before |
| `DrmNesting.OpenedSession` | drm-tests/drm_server.c:223-253 | an OK CRTC request has saved what the CRTC showed and left it showing the client's buffer at 0,0 |
| `DrmNesting.ClosedSession` | drm-tests/drm_server.c:290-310 | an OK CRTC_STOP changes no record and restores the saved state if its mode was valid |
| `DrmNesting.UntouchedCrtc` | drm-tests/drm_server.c:177-341 | requests about other CRTCs, and CRTC requests that fail before the switch, leave this CRTC alone |
| `DrmNesting.DarkScreenStaysOn` | drm-tests/drm_server.c:290-310 | on a CRTC that is off, a session that the kernel grants is a nested run answered OK twice that leaves the client's buffer on, until its client ends |
| `DrmNesting.TwoSessionsNest` | drm-tests/drm_server.c:200-310 | two sessions that the kernel grants, the second closed first, each client ending after its STOP, are nested, whatever their slots and modes, and leave on the screen what was there |
| `DrmNesting.OverlapLosesTheScreen` | drm-tests/drm_server.c:290-310 | two sessions that the kernel grants, stopped in opening order, are all answered OK and leave the first client's buffer on the CRTC; when that client ends, the CRTC is off |
| `DrmNesting.OverlapWithEarlyExit` | drm-tests/drm_client_crtc.c:296-311 | if the first client has ended before the second STOP is served, that STOP is answered ERROR and the screen keeps what it showed before both: the outcome is a race |
| `DrmSessions.RunIsItsEvents` | drm-tests/drm_server.c:102-345 | in every run of the whole system, records and display change only by the requests served and by the framebuffers clients make and take with them, one by one in order |
| `DrmSessions.SystemRunsRestore` | drm-tests/drm_server.c:200-310 | in every run of the whole system whose served requests nest on a CRTC, the screen ends as it started if and only if the CRTC was on at the start, or no client's buffer is left on it |
| `DrmSessions.EverybodyGoneRestores` | drm-tests/drm_client_crtc.c:310-311 | when in addition every client has ended, the screen shows what it showed at the start, whether the CRTC was on or off then |
| `DrmSessions.RunSparesOthers` | drm-tests/drm_client_crtc.c:182-186 | no run touches a framebuffer that was there before it: the clients own only the ones they made |
| `FrameHandoff.CopyExcludesUpload` | gst/gst-simple/gles2.c:161-164 | in every byte-granular interleaving with any number of render threads, while one thread copies nobody uploads and no other thread copies |
| `FrameHandoff.UploadsAreWholeFramesInOrder` | gst/gst-simple/gles2util.c:221-224 | every uploaded image is one whole rendered frame, and the uploads are a strictly increasing subsequence of the render calls |
| `FrameHandoff.StepKeepsInv` | gst/gst-simple/gles2util.c:221-224 | every byte copied, every exchange and every release keeps the ownership invariant |
| `FrameHandoff.RenderRuns` | gst/gst-simple/gles2.c:161-164 | the steps of an uninterrupted render can be taken in every state; they leave exactly its frame in a free buffer, marked full, and nothing but the record of the call otherwise |
| `FrameHandoff.UploadRuns` | gst/gst-simple/gles2util.c:221-224 | likewise an uninterrupted turn of the GL loop: it hands over a full buffer whole and frees it |
| `FrameHandoff.SharedBuffer.constructor` | gst/gst-simple/gles2.c:111 | the buffer starts free |
| `FrameHandoff.SharedBuffer.CompareAndExchange` | gst/gst-simple/gles2.c:161 | the word changes exactly when it held the expected value |
| `FrameHandoff.SharedBuffer.RenderFrame` | gst/gst-simple/gles2.c:161-164 | the producer fills and marks a free buffer, and drops the frame otherwise; on the shared variables this is a run of the byte-granular steps |
| `FrameHandoff.SharedBuffer.UpdateTexture` | gst/gst-simple/gles2util.c:221-224 | the consumer takes a full buffer whole and frees it, and does nothing otherwise; again a run of the steps |
| `EchoTable.FullWhenNoFreeSlot` | tcp/c/echo/s_poll.c:108-128 | the number of distinct entries reaches the table size exactly when no slot is free |
| `EchoTable.AdmitPlaces` | tcp/c/echo/s_select.c:120-141 | a new descriptor goes into the lowest free slot and no other slot changes |
| `EchoTable.AdmitRefines` | tcp/c/echo/s_select.c:120-141 | entries stay distinct and equal to the open descriptors; a new connection is kept exactly when the table is not full, as in the abstract server; a peer without a name ends the process exactly when a slot was free for it |
| `EchoTable.ServeRefines` | tcp/c/echo/s_poll.c:141-172 | a descriptor leaves the table exactly when it is closed, as in the abstract server; a client without a name ends the process |
| `EchoPoll.RoundServes` | tcp/c/echo/s_poll.c:73-177 | the clients a round serves, exactly: those `poll` reported, in order, and after them a new one that took the slot above `max` with a stale service event when the count has an event left over |
| `EchoPoll.RoundServesReported` | tcp/c/echo/s_poll.c:96-177 | a round serves exactly the reported clients if and only if that has not happened; in particular whenever every reported client event includes POLLIN or POLLERR |
| `EchoPoll.UnreportedIsServed` | tcp/c/echo/s_poll.c:80-177 | with a table of any size, a run from the start to a round that serves a client `poll` has reported nothing for |
| `EchoPoll.RoundExits` | tcp/c/echo/s_poll.c:96-177 | a round ends the process if and only if `accept` fails, or a slot is free for a peer without a name, or `accept` was not interrupted and a client the round comes to has no name |
| `EchoPoll.ExitingScanServes` | tcp/c/echo/s_poll.c:134-176 | a scan that ends the process has served the clients before the first one without a name, in order |
| `EchoPoll.RoundLeavesEvents` | tcp/c/echo/s_poll.c:80-106 | a round leaves the events `poll` wrote, and the stale ones above; an interrupted `accept` leaves everything else too |
| `EchoPoll.ReportedAre` | tcp/c/echo/s_poll.c:134-139 | the clients reported for service are those with POLLIN or POLLERR, each once, in order |
| `EchoPoll.UnconsumedWhen` | tcp/c/echo/s_poll.c:130-175 | the count has no event left over exactly when every reported event is one the round takes out of it |
| `EchoPoll.ScanServesCandidates` | tcp/c/echo/s_poll.c:134-176 | the scan serves the occupied slots with service events in order, cut off at the count |
| `EchoPoll.RoundRefines` | tcp/c/echo/s_poll.c:73-177 | a round that does not exit keeps the table invariant and is a run of the abstract server |
| `EchoPoll.ServerRefines` | tcp/c/echo/s_poll.c:65-177 | any number of rounds from the start is a run of the abstract server from no client at all, and the table is then exactly the open descriptors |
| `EchoPoll.PollServer.constructor` | tcp/c/echo/s_poll.c:65-69 | the server starts with the listener first and every other entry free |
| `EchoPoll.PollServer.HighestUsed` | tcp/c/echo/s_poll.c:74-78 | `max` is the last used entry |
| `EchoPoll.PollServer.AcceptClient` | tcp/c/echo/s_poll.c:108-128 | a new descriptor is placed, dropped or ends the process as the table operation says |
| `EchoPoll.PollServer.ServeClient` | tcp/c/echo/s_poll.c:141-172 | one ready client is echoed to, closed, or ends the process |
| `EchoPoll.PollServer.ScanClients` | tcp/c/echo/s_poll.c:134-176 | the loop over the entries with its running count is `Scan` |
| `EchoPoll.PollServer.PollRound` | tcp/c/echo/s_poll.c:73-177 | one pass of the loop over the arrays is one `Round` |
| `EchoPoll.PollServer.WriteEvents` | tcp/c/echo/s_poll.c:80 | `poll` writes the events up to `max`; the entries above keep their stale ones |
| `EchoSelect.RoundServesAndRefines` | tcp/c/echo/s_select.c:73-179 | a round serves exactly the reported descriptors, in slot order, keeps the table invariant, and is a run of the same abstract server |
| `EchoSelect.ServerRefines` | tcp/c/echo/s_select.c:70-180 | any number of rounds from the start is a run of the abstract server from no client at all, and the table is then exactly the open descriptors |
| `EchoSelect.RoundExits` | tcp/c/echo/s_select.c:100-179 | a round ends the process if and only if `accept` fails, or a slot is free for a peer without a name, or `accept` was not interrupted and a reported client has no name |
| `EchoSelect.ExitingScanServes` | tcp/c/echo/s_select.c:144-179 | a scan that ends the process has served the reported clients before the first one without a name, in order |
| `EchoSelect.ReadyAre` | tcp/c/echo/s_select.c:144-150 | the clients a round is to serve are the occupied entries whose descriptor was reported, each once, in order |
| `EchoSelect.SelectServer.constructor` | tcp/c/echo/s_select.c:70-71 | the server starts with an empty table |
| `EchoSelect.SelectServer.WatchedSet` | tcp/c/echo/s_select.c:74-86 | the set handed to `select` is the listener and the table's entries, and `max` bounds it |
| `EchoSelect.SelectServer.AcceptClient` | tcp/c/echo/s_select.c:120-141 | a new descriptor is placed, dropped or ends the process as the table operation says |
| `EchoSelect.SelectServer.ServeClient` | tcp/c/echo/s_select.c:151-172 | one ready client is echoed to, closed, or ends the process |
| `EchoSelect.SelectServer.ScanClients` | tcp/c/echo/s_select.c:144-179 | the loop over the entries is `Scan` |
| `EchoSelect.SelectServer.SelectRound` | tcp/c/echo/s_select.c:73-180 | one pass of the loop is one `Round` |
| `MioEcho.OutputIsPrefixOfInput` | tcp/rust/echo/src/bin/s_mio_poll.rs:62-118 | in every run, bytes read from a live client are bytes echoed, buffered or just being read if and only if no call to `read_to_string` has drained a chunk that is not whole UTF-8 characters; the same of a removed client and what was buffered when it went, and all that was read from it came back if and only if in addition nothing was buffered; then the output is a prefix of the input |
| `MioEcho.WholeChunksAreEchoed` | tcp/rust/echo/src/bin/s_mio_poll.rs:64-78 | in every run, what was read is the chunks of the calls so far and the one under way, and the whole ones among them, in order, are what was echoed followed by the buffered message |
| `MioEcho.WholeArrivalsAreEchoed` | tcp/rust/echo/src/bin/s_mio_poll.rs:62-118 | if no peer pauses inside a character, the server does not panic and no byte read is lost to the encoding: what was read from a live client was echoed, is buffered or is being read; of a removed client, only what was buffered when it went did not come back |
| `MioPauses.ArrivalsDecide` | tcp/rust/echo/src/bin/s_mio_poll.rs:62-118 | for every list of arrivals: the server keeps every byte it reads, in every run in which the peers send just these, if and only if each of them is whole characters |
| `MioPauses.SplitCharacterIsLost` | tcp/rust/echo/src/bin/s_mio_poll.rs:65-75 | a run in which a well-formed stream of five bytes pauses inside a character: only its last byte comes back, no prefix of the input, and nothing panics |
| `MioPauses.OneClient` | tcp/rust/echo/src/bin/s_mio_poll.rs:62-118 | every list of arrivals has a run from the start, with one client, in which each comes back if it is whole characters and is gone if not |
| `MioClosing.EndOfFileDropsTheEvent` | tcp/rust/echo/src/bin/s_mio_poll.rs:64-78 | in every run, a client removed at its end of file goes with exactly what it sent since the event before: nothing is dropped if and only if the event brought nothing but the end of the file |
| `MioClosing.PatientPeersGetEverything` | tcp/rust/echo/src/bin/s_mio_poll.rs:62-118 | in every run without a failed write whose peers close only when all they sent has come back, every removed client has had back all it ever sent |
| `MioClosing.ClosingTooEarly` | tcp/rust/echo/src/bin/s_mio_poll.rs:65-69 | from rest, whatever whole characters a peer sends before it closes at once, none of them come back |
| `MioClosing.HiIsNotEchoed` | tcp/rust/echo/src/bin/s_mio_poll.rs:65-69 | a run from the start in which a client sends two characters, closes, and hears nothing |
| `Utf8.ValidConcat` | tcp/rust/echo/src/bin/s_mio_poll.rs:65 | behind whole characters, the rest of a byte string decides whether it is well-formed |
| `Utf8.ValidExactlyEncoded` | tcp/rust/echo/src/bin/s_mio_poll.rs:65 | the test on the bytes is exact: they are well-formed if and only if they encode some sequence of Unicode scalar values |
| `MioEcho.NeverStuck` | tcp/rust/echo/src/bin/s_mio_poll.rs:62-118 | in every run, a client in its read phase with unread input has a readable event pending or queued, a client in its write phase has writability armed, and an accepted-but-unclaimed connection has a listener event coming |
| `MioEcho.TokensAreFound` | tcp/rust/echo/src/bin/s_mio_poll.rs:79-81 | in every run each event handed out belongs to the listener or to a client in the map; the two `unreachable!` branches are not reached |
| `MioEcho.TokensAreFresh` | tcp/rust/echo/src/bin/s_mio_poll.rs:41-55 | a token given out is not SERVER and has never been used before |
| `MioEcho.StepKeepsInv` | tcp/rust/echo/src/bin/s_mio_poll.rs:34-122 | every step of the loop, of a peer or of the kernel keeps the invariant |
| `MioLoop.EventLoop.constructor` | tcp/rust/echo/src/bin/s_mio_poll.rs:25-27 | the loop starts with no client and token 1 |
| `MioLoop.EventLoop.OnListener` | tcp/rust/echo/src/bin/s_mio_poll.rs:39-61 | all waiting connections, and those that dial meanwhile, are accepted in order under consecutive new tokens, registered for reading, and no other client changes; the arm is a run of the loop's steps |
| `MioLoop.EventLoop.OnReadable` | tcp/rust/echo/src/bin/s_mio_poll.rs:62-95 | the arm is a run of the loop's steps, whatever the peer sends meanwhile, and touches no other client: everything is read and writing armed once, or the client is removed at end of file, or a stream that ends inside a character panics |
| `MioLoop.EventLoop.ReadAll` | tcp/rust/echo/src/bin/s_mio_poll.rs:64-78 | the reading loop ends with the socket blocked and all input read, at its end, or in a panic, by steps of the loop |
| `MioLoop.EventLoop.OnWritable` | tcp/rust/echo/src/bin/s_mio_poll.rs:96-118 | the arm is a run of the loop's steps: the message is echoed whole and cleared and reading armed, or the client is removed after part of it |
| `RiscV.SumReturnsTheSum` | asm/riscv32/t/test1.s:7-14 | `sum` returns n(n+1)/2 modulo 2^32 for every n below 2^32-1, after exactly 3n+7 instructions, and changes no register but a0, t0, t1 |
| `RiscV.SumHaltsExactlyBelowTheTop` | asm/riscv32/t/test1.s:10-12 | `sum` returns if and only if n is not 2^32-1 |
| `RiscV.TestExpressionAgrees` | asm/riscv32/t/main.c:10-13 | the 32-bit expression of the repository's own test equals the sum if and only if bit 32 of n(n+1) is clear |
| `RiscV.Sum2ReturnsTheSum` | asm/riscv32/t/test1.s:17-27 | `sum2` returns n(n+1)(2n+1)/6 modulo 2^32 for every n below 2^32-1, after exactly 4n+8 instructions, and changes no register but a0, t0, t1, t2 |
| `RiscV.Sum2HaltsExactlyBelowTheTop` | asm/riscv32/t/test1.s:22-25 | `sum2` returns if and only if n is not 2^32-1 |
| `RiscV.SumClosedForm` | asm/riscv32/t/main.c:12 | twice 0+1+...+n is n(n+1) |
| `RiscV.SquaresClosedForm` | asm/riscv32/t/main.c:17 | six times 0+1+4+...+n^2 is n(n+1)(2n+1) |
| `RiscV.Hart.constructor` | asm/riscv32/t/test1.s:7 | the register-array machine starts as the state machine does on a call |
| `RiscV.Hart.Tick` | asm/riscv32/t/test1.s:7-27 | one instruction executed in place on the register array is one step of the machine |
| `RiscV.Hart.Execute` | asm/riscv32/t/test1.s:7-27 | executing up to a budget of instructions is that many steps |
| `Mips.OnesCountsBits` | asm/mips/test2.s:11-20 | `ones` returns the number of one bits of every 32-bit argument after 5 instructions for each binary digit plus one, without its `add` ever trapping, and leaves memory and all registers but $v0, $a0, $t0 alone |
| `Mips.FibReturnsFibonacci` | asm/mips/test3.s:11-41 | `fib` returns Fib(n) modulo 2^32 for every 1 <= n < 2^31 within 6n+15 instructions, and 1 for all other arguments; registers but $v0, $t0, $t1 (so $s0, $s1, $s2, $sp) are restored, and memory outside its three stack words is untouched |
| `Mips.FibNeedsItsStack` | asm/mips/test3.s:13-16 | in all other cases `fib` does not return: it traps exactly when moving the stack pointer overflows, and else faults on one of its three pushes |
| `Mips.AdditionsTrap` | asm/mips/test2.s:15 | `add` and `addi` trap exactly when the signed sum does not fit into 32 bits, changing nothing |
| `Mips.OnesIterates` | asm/mips/test2.s:13-18 | one pass of the loop counts the lowest digit and drops it, and leaves the loop exactly when nothing is left |
| `Mips.FibLoops` | asm/mips/test3.s:27-33 | the loop of `fib` keeps two neighbouring Fibonacci numbers and leaves it at n |
| `Mips.PushedHolds` | asm/mips/test3.s:12-17 | the three pushed words hold the saved registers and nothing else in memory changed |
| `Mips.Cpu.constructor` | asm/mips/test2.s:11 | the register-array machine starts as the state machine does on a call |
| `Mips.Cpu.Tick` | asm/mips/test3.s:11-41 | one instruction executed in place on registers and memory is one step of the machine |
| `Mips.Cpu.Compute` | asm/mips/test2.s:12-16 | the register-only instructions, executed in place, are steps of the machine, traps included |
| `Mips.Cpu.Execute` | asm/mips/test3.s:11-41 | executing up to a budget of instructions is that many steps |
| `VideoSink.ScreenHoldsLastFrame` | gst/gst-drm/drmsink.c:353-388 | in every run from setup to stop, with failing renders and at every byte of a copy, the buffer on the screen is not the one being written and its picture region is the last successfully rendered frame, whole |
| `VideoSink.PaddingStays` | gst/gst-drm/drmplanesink.c:328-336 | over every run only bytes of the picture, at s*stride + j, are ever changed |
| `VideoSink.ShowsRowsBytewise` | gst/gst-drm/drmplanesink.c:333-335 | that a buffer shows a frame means byte for byte: s*stride + j of the buffer is 4*s*width + j of the frame |
| `VideoSink.StepKeepsInv` | gst/gst-drm/drmplanesink.c:316-349 | every byte copied, every flip, failed flip and stop keeps the invariant |
| `VideoSink.RowFits` | gst/gst-drm/drmsink.c:370-372 | every byte of every copied row lies inside both buffers |
| `VideoSink.Sink.constructor` | gst/gst-drm/drmsink.c:50 | a new sink is not set up |
| `VideoSink.Sink.Setup` | gst/gst-drm/drmsink.c:105-189 | setup succeeds exactly when every allocation did and (CRTC sink) the picture fits and the CRTC could be read; a CRTC sink has then allocated two buffers of the whole mode, a plane sink two of the picture, and the sink is in its initial state; the screen stays as it is |
| `VideoSink.Sink.SetCaps` | gst/gst-drm/drmsink.c:191-199 | a sink is set up once; a second call changes nothing and answers true, even after `stop` when the buffers are gone, and only then the sink is unusable |
| `VideoSink.Sink.CopyRow` | gst/gst-drm/drmsink.c:371 | one row arrives whole at s*stride and nothing else changes |
| `VideoSink.Sink.CopyFrame` | gst/gst-drm/drmsink.c:365-373 | after the row loop the buffer shows the frame and its padding is as before |
| `VideoSink.Sink.Render` | gst/gst-drm/drmplanesink.c:316-349 | a render is a run of the sink's byte-wise steps and succeeds exactly when the frame is large enough and the flip worked; the buffer on the screen then holds the new frame, else still the last one, whole |
| `VideoSink.RenderRuns` | gst/gst-drm/drmsink.c:353-388 | whatever buffer has the rows of the frame and its old padding, the steps of a whole render lead to it |
| `VideoSink.StopRestores` | gst/gst-drm/drmplanesink.c:301-307 | in every run from setup to `stop`, none of the sink's buffers stays on the screen, and it shows what it showed at the setup if and only if that was nothing, or a CRTC could be set back, or no frame has been shown and no plane switched off |
| `VideoSink.Sink.Stop` | gst/gst-drm/drmsink.c:325-351 | the stop, in place, is a step of the sink, with the same condition; the buffers are gone, while `enabled` stays set |
| `RateLimiter.LimiterIsOptimal` | wiid-tests/wii_acc.c:123-140 | no choice of samples at least 100 ms apart (the first not before 100 ms) is longer than what the limiter forwards, and what it forwards is such a choice |
| `RateLimiter.NoChoiceIsLonger` | wiid-tests/wii_acc.c:131-138 | the same from any sample on and any state of the clock variable |
| `RateLimiter.WindowBound` | wiid-tests/wii_acc.c:131-138 | the number of forwarded samples in any window of T ms is at most T/100 + 1 |
| `RateLimiter.CallsForward` | wiid-tests/wii_acc.c:123-140 | a run of calls of the handler forwards exactly the samples the results are about |
| `RateLimiter.MillisMonotone` | wiid-tests/wii_acc.c:128-129 | the conversion of seconds and nanoseconds to milliseconds is monotone |
| `RateLimiter.RealSpacing` | wiid-tests/wii_acc.c:129-131 | forwarded samples are at least 99.000001 ms apart in real time, and that bound is reached: the conversion truncates |
| `RateLimiter.ForwardedIsSpaced` | wiid-tests/wii_acc.c:131-138 | any two forwarded samples in a row are at least 100 ms apart |
| `RateLimiter.Accelerometer.constructor` | wiid-tests/wii_acc.c:33 | the clock variable starts at 0 |
| `RateLimiter.Accelerometer.Handle` | wiid-tests/wii_acc.c:123-140 | one call of such a run: a sample is sent as three relative events and a synchronisation, and remembered, or nothing changes |
| `TwoSemaphores.TurnsAlternate` | sem/exec_fd.c:52-103 | for every cycle count and schedule: the child has file bytes 0, 2, 4, ... and the parent 1, 3, 5, ...; semaphores plus processes inside total 1; no unfinished state is stuck; a schedule is finished exactly after 6 steps per cycle, with 2N bytes read |
| `TwoSemaphores.OneCanMove` | sem/exec_fd.c:76-103 | exactly one process can move until both are done |
| `TwoSemaphores.ReadAlternately` | sem/exec_fd.c:76-103 | the two loops, run in the only order their semaphores allow, hand out the bytes alternately |
| `ColorBars.PackedStoresRightWhenEven` | fbdev/c/fbdev.c:95-112 | the packed 16-bit stores give every pixel the colour of band 6y/h, whatever the memory held, if and only if the width is even or there is no row |
| `ColorBars.EvenWidthPixel` | fbdev/c/fbdev.c:97-111 | with an even width every pixel shows its band's colour |
| `ColorBars.Pixel32` | fbdev/c/fbdev.c:101-111 | at 32 bits per pixel every pixel shows the colour of its row's band, at any width |
| `ColorBars.LastPixelUntouched` | fbdev/c/fbdev.c:99-111 | with an odd width the last pixel is never stored |
| `ColorBars.RowsAt` | drm-tests/bitmap_utils.c:21-28 | every word of the picture has the colour of its row's band |
| `ColorBars.BandsAreEven` | drm-tests/bitmap_utils.c:23 | each band is one run of rows, the bands cover the screen in order, and their heights differ by at most one row |
| `ColorBars.Band` | fbdev/c/fbdev.c:98 | the colour index is always below 6 |
| `ColorBars.ScreenInsideMapping` | fbdev/c/fbdev.c:74-111 | the words of a whole screen fit into the h * w * bpp / 8 bytes that are mapped, and fill them if and only if the depth is 32, the width even or there is no row |
| `ColorBars.DrawBars` | fbdev/c/fbdev.c:74-112 | on the whole words of a mapping of h * w * bpp / 8 bytes, the drawing loops leave the picture and touch nothing else, and store the words 0, 1, 2, ... once each, every one inside the mapping |
| `ColorBars.DrawRows` | fbdev/c/fbdev.c:95-112 | row after row the finished part grows by one row, and the memory behind it stays |
| `ColorBars.DrawRow` | fbdev/c/fbdev.c:110-111 | one row of stores fills its words, in order, and nothing else |
| `ColorBars.FillScreen` | fbdev/c/fbdev.c:114-133 | a fill stores every word of the screen once, with the colour asked for, all inside the mapping |
| `ColorBars.DrawTestImage` | drm-tests/bitmap_utils.c:10-31 | the test image is the same picture as the 32-bit path draws |
| `EventWalk.Walk` | inotify/c/fs_notify.c:72-88 | over a buffer holding any list of serialised events the walk visits exactly those events in order and ends with i at the length and j at their number |
| `EventWalk.FirstEvent` | inotify/c/fs_notify.c:74-76 | the header at the front of serialised events gives back the first event and the place of the next |
| `EventWalk.SerialisationIsInjective` | inotify/c/fs_notify.c:74-88 | two event lists with the same bytes are the same list |
| `EventWalk.WordRoundTrip` | inotify/c/fs_notify.c:75-76 | a header word is read back from its four bytes |

## Left out

Display protocol:

- `poll` is called with one entry more than the array has (drm-tests/drm_server.c:104); the array is modelled as declared.
- DrmProto.LongNamesOverrun: what an overrun of the mode name hits is not modelled; the server's state is lost with it (on 64-bit machines the first few characters fall into padding).
- DrmServer.RoundServesReported: assumes `poll` counts at least the events it reported and none for free slots, and an `accept` that did not fail (that ends the server).
- DrmProtocol.RunsInLockstep: one write is read as one whole message (both sides write and read fixed-size buffers); split or merged reads are not modelled.
- `%d` with a digit run outside the range of `int`, which C leaves undefined, scans modulo 2^32 here.
- A driver that leaves a CRTC on without a buffer when its framebuffer is removed; here it goes off. Framebuffer number 0xFFFFFFFF, which stands for the current one in a request.
- A reply to a vanished client is lost; the SIGPIPE that could end the server then is not modelled.
- `magic` and `command` are uninitialised in the server until the first message; any start value is allowed.
- The connector list passed to the kernel on set and restore, gamma, and DRM master rights.
- The client's set-up, its 5 s timeout and interrupted waits: a client may quit at any step instead.
- Freeing of saved CRTCs and modes (the server never frees them).
- drm-tests/drm_utils.c beyond the search for a mode by name, `drm_info.c`, and the other DRM and GL demos.

Frame handoff:

- The upload before the loop (gst/gst-simple/gles2util.c:468) and `glt_active`; runs start where the loop does, with frames of the negotiated size.
- Weak memory order: the two atomic operations are taken as sequentially consistent.

Echo servers:

- The byte-level `handle_echo` routines: only their three-way result, and a failing `getpeername`, are modelled.
- EchoPoll.RoundServesReported: speaks of rounds whose accept was not interrupted and that do not end the process; tables have at least one client slot. Sequences of rounds end with the process.
- Timeouts and interrupted waits, which only start the loop again.
- Socket errors other than blocking, and wrap-around of the token counter in the mio server, which panic or take 2^64 connections. The state after a panic.
- MioEcho.NeverStuck: assumes that registering a socket reports readiness that is already there, and does not cover events that are neither readable nor writable.

Assembly:

- Branch delay slots (the assembler fills them), instruction encodings, and all instructions the three routines do not use.
- Mips.FibReturnsFibonacci: requires three aligned, mapped words below a stack pointer whose decrement does not overflow (without them it does not return, `Mips.FibNeedsItsStack`).

Video sinks:

- Property handling, mode search, format negotiation, and a second setup after `stop`; `stop` before a successful setup, which dereferences a null saved CRTC.
- VideoSink.StopRestores: assumes that nobody else changes the sink's CRTC or plane while the sink is set up.
- Picture sizes are negotiated at most 4096 by 4096, so the 32-bit products in `render` do not wrap; they are unbounded here. A pitch is taken to be at least four bytes a pixel.

Others:

- 64-bit overflow of the millisecond clock, and failed writes to the input device.
- The semaphores are assumed newly created and the file long enough; signal handling and cleanup are left out.
- Depths other than 16 and 32 bits (the program stops), and overflow of `6 * i` and of the mapping size.
- Reading and reporting around the event walk, and a buffer that does not hold whole events, which the kernel does not produce.
- `draw_fancy_image`, rotations and shaders; the page-flip demo, whose pending flag is never tested.
- All other samples of the repository (threads, signals, pty, netlink, uinput, tun-tap, multicast, UDP, usb, daemons): plumbing or demonstrations without an invariant of their own.
