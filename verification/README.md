# Verification of the camera remote's control plane

This project models the part of Legacy Alpha Remote that runs for ever and is driven by a clock: the
remote state machine, the guards in front of it (rate limiter, deduplicator, PIN and content type checks),
the byte-level HTTP and JSON parsers, the connection table of the HTTP server, and the live-view fallback
of the camera controller. The code is modelled call by call as classes and loops; each method is proved to
compute a function of the state it found, and the promises are proved about those functions, over all
inputs and all runs.

`dafny verify dfyconfig.toml` checks everything.

## How it fits together

- `Types`, `Machine`, `StateMachine`: the class `RemoteStateMachine` keeps the program's enum, flags,
  deadlines and live command ids. Every method refines a tagged union (`Machine.Machine`) in which a phase
  has only the data it needs. `World` is the environment: any clock that does not run backwards, and a sink
  that may refuse any command.
- `Runs`, `Promises`, `Reach`, `Live`, `Timing`: arbitrary interleavings of calls. `Runs` gives the trace of
  permissions, commands and resets of a run, and a watcher every run satisfies; `Promises` states the
  consequences for the camera directly; `Reach` counts captures; `Live` is about command ids, countdown and
  readiness; `Timing` is about ticks.
- `RateLimiting`, `Deduplication`: the lists the program keeps, against a record of all
  visits with the answers given, and against the history of all answers.
- `Http`, `HttpParser`, `Rendering`: what a request parses to, the parser's loops, its behaviour on a growing
  buffer, and the requests that come back as they were written.
- `Json`, `Cursor`, `Bodies`: escaping, the value readers of the cursor, and the two request bodies.
- `Control`, `Runtime`, `Sessions`: `NativeRuntime` composed of all the above; whole runs of it are runs of
  the machine, and a capture is carried out at most once per request id.
- `Server`: clients, poll rounds and requests that arrive in pieces.
- `Preview`: generations, delayed tasks and frame callbacks of the fallback.

A `World` consumes one instant for each clock read and each dispatched command, so an order carries the
time at which it was handed over. The k-th command a machine hands over has id k.

## Where the code differs from what one would expect

- After `setFocus(true)` the capture deadline is still 0, so the next tick offers a CAPTURE. A half-press
  therefore counts as a permission to take a picture; `Timing.HalfPressFate` says exactly when it is used,
  `Timing.HalfPressExample` is a run.
- `physicalShutter(false)` at clock 0 stores the deadline 0, which means "none". No tick releases the shutter
  from then on, and neither does any later key-up, whatever the clock reads. `Timing.KeyUpReleases` gives the
  exact condition, `Timing.KeyUpAtZeroSticks` the consequence, `Timing.ClockZeroExample` a run. A clock that has run since boot does not read 0.
- A failure reported for id 0 (the id of screen updates) equals a cleared capture id and puts the machine
  into ERROR, also when it is stopped or not ready. `Live.OnlyZeroReportsBreakReadiness` is the exact
  condition, `Live.ZeroReportExample` an input, and `Live.ZeroReportsKeep` says when nothing happens. The shipped activity returns before it reports on a screen
  update (LegacyAlphaRemoteActivity.java:89-93), so only another caller of `reportCommandResult` can do this.
- The search for the blank line starts behind the request line's own CRLF, although RFC 7230 section 3 allows
  a request without header lines. Such a GET is accepted only when one more CRLF follows its blank line, and
  until then it is incomplete or refused. `Rendering.HeaderlessRequests` is the exact statement,
  `Rendering.HeaderlessExample` an input.
- A request line of exactly `maxRequestLine` bytes is refused when the buffer ends between its CR and its
  LF; `Http.WaitsForTheWholeRequest` shows that this is the only case in which a prefix is not waited for,
  and `Rendering.LongLineExample` is such a request.
- While the runtime is not started its PIN is empty. No request can move the idle machine then, but a preview
  that is set in that state, as after the unlock in `NativeRuntime::stop` and before its server thread ends, is
  handed out without a PIN. `Sessions.PreviewIsGuarded` is the exact condition,
  `Sessions.UnstartedPreviewExample` an input.
- A capture whose last delayed task runs while the preview is off gets no frame unless a command restarts the
  preview: a surface that comes back does not ask for one. `Preview.WaitingHasHope` is the exact condition,
  `Preview.StrandedExample` a run.
- `strtol` and `strtoul` are those of the 32-bit camera: they saturate at 2147483647 and 4294967295.

The rate limiter needs no assumption on its clock for exactness, because a bucket's own time never runs back.
A bound in terms of the times that were read needs reads in order, as the program's monotonic clock gives them
under its lock; `RateLimiting.ClockBackExample` shows why.

## Model

| member | source | states |
|---|---|---|
| StateMachine.RemoteStateMachine.Start | app/src/main/jni/remote_state_machine.cpp:28-37 | keeps the invariant of flags, schedule and live ids, and acts on the tagged union as a start |
| StateMachine.RemoteStateMachine.Stop | app/src/main/jni/remote_state_machine.cpp:39-47 | from every phase to Stopped, cancelling autofocus first if it is on, whatever the sink answers |
| StateMachine.RemoteStateMachine.SetCameraReady | app/src/main/jni/remote_state_machine.cpp:49-58 | losing the camera drops everything; regaining it arms only a starting machine whose network is ready |
| StateMachine.RemoteStateMachine.SetWifiReady | app/src/main/jni/remote_state_machine.cpp:60-69 | the same for the network |
| StateMachine.RemoteStateMachine.Send | app/src/main/jni/remote_state_machine.cpp:75-89 | hands over exactly one command under the next id; a refusal clears the schedule and is an ERROR |
| StateMachine.RemoteStateMachine.RequestCapture | app/src/main/jni/remote_state_machine.cpp:91-117 | granted only in ARMED and in range; writes down both deadlines and ticks once |
| StateMachine.RemoteStateMachine.CancelCountdown | app/src/main/jni/remote_state_machine.cpp:119-130 | only what has not been captured can be cancelled; autofocus is cancelled with it |
| StateMachine.RemoteStateMachine.SetFocus | app/src/main/jni/remote_state_machine.cpp:132-153 | half-press and its release, with the error cases |
| StateMachine.RemoteStateMachine.PhysicalShutter | app/src/main/jni/remote_state_machine.cpp:155-179 | key-down takes over from whatever was pending, key-up makes the release due |
| StateMachine.RemoteStateMachine.BeginCapture | app/src/main/jni/remote_state_machine.cpp:181-192 | one CAPTURE, then hold and cooldown counted from the clock read after it |
| StateMachine.RemoteStateMachine.Tick | app/src/main/jni/remote_state_machine.cpp:194-219 | the four steps in a row are the one case of the union's tick that applies |
| StateMachine.RemoteStateMachine.ReportCommandResult | app/src/main/jni/remote_state_machine.cpp:221-237 | which live id is hit decides between ERROR, ARMED and a text only |
| StateMachine.RemoteStateMachine.CountdownRemainingMs | app/src/main/jni/remote_state_machine.cpp:239-244 | the time to the pending capture, 0 if none, and nothing else changes |
| StateMachine.RemoteStateMachine.StateIsNamed | app/src/main/jni/remote_state_machine.cpp:17-26 | between calls the phase of the union determines the program's state |
| Machine.StepsOfTick | app/src/main/jni/remote_state_machine.cpp:194-219 | taking the four tests of a tick in a row, each on what the one before left, is the one case of the union's tick that applies |
| Runs.RunIsWatched | app/src/main/jni/remote_state_machine.cpp:28-261 | every run, under every clock and sink, is accepted by the watcher of the command protocol |
| Promises.CommandsAlternate | app/src/main/jni/remote_state_machine.cpp:119-219 | after an accepted CAPTURE only its RELEASE or a reset comes next; between two START_AF there is a reset, a CANCEL_AF or a CAPTURE |
| Promises.CancelFollowsStart | app/src/main/jni/remote_state_machine.cpp:119-153 | every CANCEL_AF cancels an accepted autofocus that is still on |
| Promises.ReleaseFollowsItsCapture | app/src/main/jni/remote_state_machine.cpp:155-219 | every RELEASE directly follows its own accepted CAPTURE, a web one after at least the hold time, whatever keys are let go |
| Promises.CaptureHasItsGrant | app/src/main/jni/remote_state_machine.cpp:91-219 | every accepted CAPTURE uses up one earlier permission; a web capture is never early and follows its own START_AF exactly if autofocus was asked for |
| Promises.CapturesAreSpaced | app/src/main/jni/remote_state_machine.cpp:181-219 | without a readiness loss or stop in between, an accepted CAPTURE and a later one are a cooldown apart |
| Promises.CaptureRate | app/src/main/jni/remote_state_machine.cpp:181-219 | n captures without such a loss take at least (n - 1) cooldowns |
| Reach.CapturesAreGranted | app/src/main/jni/remote_state_machine.cpp:91-219 | in every run, accepted captures plus the one still owed are at most the granted calls |
| Reach.RefusedCallsTakeNothing | app/src/main/jni/remote_state_machine.cpp:91-179 | a triggering call that returns false had no CAPTURE accepted and leaves none of its own pending |
| Reach.TraceShowsTheLog | app/src/main/jni/remote_state_machine.cpp:75-89 | the trace shows, in order, every command a run hands over but those its stops send |
| Reach.StopsOnlyCancel | app/src/main/jni/remote_state_machine.cpp:39-47 | a stop hands over one CANCEL_AF if autofocus is on and nothing else, and no call rewrites the log |
| Live.RunSound | app/src/main/jni/remote_state_machine.cpp:28-261 | in every reachable state, live ids are the latest commands, of the right kind, and every deadline lies within its longest wait, autofocus not after the capture |
| Live.RunNumbered | app/src/main/jni/remote_state_machine.cpp:75-89 | command ids count up from 1 |
| Live.StaleResultsAreInert | app/src/main/jni/remote_state_machine.cpp:221-237 | in every reachable state a result for an id from 1 on changes nothing unless it is a failure of a live command; a focus failure reaches ARMED only with both readiness flags true |
| Live.ZeroReportsKeep | app/src/main/jni/remote_state_machine.cpp:221-237 | in every reachable state a failure for id 0 leaves phase and commands alone if and only if a capture is live or an error was met |
| Live.ErrorAbsorbs | app/src/main/jni/remote_state_machine.cpp:28-261 | in every run an ERROR of a running machine lasts until a stop or a readiness loss, and no call hands over a command before |
| Live.CountdownInRange | app/src/main/jni/remote_state_machine.cpp:239-244 | in every reachable state the countdown is between 0 and the longest possible wait |
| Live.OnlyZeroReportsBreakReadiness | app/src/main/jni/remote_state_machine.cpp:221-261 | ERROR means running and ready after a call if and only if the call is not a failure of id 0 on a stopped or starting machine |
| Live.RunErrorMeansReady | app/src/main/jni/remote_state_machine.cpp:256-261 | without reports for id 0, ERROR is only reached by a running machine with camera and network ready |
| Live.ZeroReportExample | app/src/main/jni/remote_state_machine.cpp:221-226 | a concrete run in which a report for id 0 breaks that |
| Timing.TickTwice | app/src/main/jni/remote_state_machine.cpp:194-219 | a second tick at the same clock value changes nothing |
| Timing.ScheduleIndependence | app/src/main/jni/remote_state_machine.cpp:91-219 | however coarse the ticks, an accepted request emits a prefix of START_AF (if asked for), CAPTURE, RELEASE, and all of it before it is ARMED again |
| Timing.BoundedResponse | app/src/main/jni/remote_state_machine.cpp:91-219 | with ticks at most g apart, the first tick that reads due + max(cooldown, hold) + 2g or later leaves the machine ARMED |
| Timing.KeyUpReleases | app/src/main/jni/remote_state_machine.cpp:155-161 | in every physical capture, letting the key go releases the shutter if and only if its deadline is not already 0 and the clock does not read 0 |
| Timing.KeyUpAtZeroSticks | app/src/main/jni/remote_state_machine.cpp:155-161 | and at clock 0 no number of ticks releases it |
| Timing.HalfPressFate | app/src/main/jni/remote_state_machine.cpp:132-219 | in every run a half-press offers a CAPTURE exactly when a tick or a key press is the first call that does not leave it as it is |
| Timing.FailsafeReleases | app/src/main/jni/remote_state_machine.cpp:181-219 | a held shutter is released by the first tick that reads its deadline or later, with or without a key-up, and by none before |
| Timing.KeyPressIsReleased | app/src/main/jni/remote_state_machine.cpp:155-219 | after a granted key press and ticks alone, the RELEASE is sent by the first tick that reads the time after the CAPTURE plus the failsafe, or later, and by none before |
| Timing.ClockZeroExample | app/src/main/jni/remote_state_machine.cpp:155-161 | a run whose clock reads 0 reaches a capture that a key-up does not release |
| Timing.HalfPressExample | app/src/main/jni/remote_state_machine.cpp:132-219 | a run in which a half-press and one tick take a picture |
| RateLimiting.RateLimiter.Allow | app/src/main/jni/rate_limiter.cpp:8-36 | find or insert with eviction of the oldest, lazy refill, cap and spend, in place |
| RateLimiting.EarnedIsProduct | app/src/main/jni/rate_limiter.cpp:26-31 | the tokens earned are elapsed time times the refill rate |
| RateLimiting.AllowIsExact | app/src/main/jni/rate_limiter.cpp:8-36 | after any calls, whatever the clock reads, a call is allowed if and only if from every earlier visit of the resident key there is room, with what the program allowed since, within capacity plus refill; a visit is at the time read, or at the latest one its bucket has seen |
| RateLimiting.RunBacked | app/src/main/jni/rate_limiter.cpp:8-36 | the tokens of every bucket are the least room that the visits of its key leave |
| RateLimiting.TokensInRange | app/src/main/jni/rate_limiter.cpp:26-35 | after any calls, even with a clock that runs back, every bucket holds between 0 and its capacity |
| RateLimiting.ResidentIsWindow | app/src/main/jni/rate_limiter.cpp:16-25 | after any calls the keys of the buckets are the last insertions that fit, each once |
| RateLimiting.RecordsAreHonest | app/src/main/jni/rate_limiter.cpp:8-36 | after any calls, every answer the program gave a resident key fits the exact rule |
| RateLimiting.BurstBound | app/src/main/jni/rate_limiter.cpp:8-36 | for calls in order of time: from any call of a key on, while its bucket is not evicted, the program allows at most capacity plus refill calls of that key |
| RateLimiting.ClockBackExample | app/src/main/jni/rate_limiter.cpp:26-35 | three calls with a clock that runs back, all allowed, break that bound |
| Deduplication.RequestDeduplicator.PruneEntries | app/src/main/jni/request_deduplicator.cpp:8-15 | the erase loop removes exactly the expired entries and keeps the order |
| Deduplication.RequestDeduplicator.Find | app/src/main/jni/request_deduplicator.cpp:17-28 | the first unexpired answer with the id, if any |
| Deduplication.RequestDeduplicator.Remember | app/src/main/jni/request_deduplicator.cpp:30-41 | prunes, makes place for one and appends with its expiry |
| Deduplication.EntriesAreWindow | app/src/main/jni/request_deduplicator.cpp:8-41 | after any questions in order of time the list is the longest suffix of the history that is unexpired and fits, in order of expiry, with distinct ids |
| Deduplication.StillFound | app/src/main/jni/request_deduplicator.cpp:17-41 | an unexpired answer with fewer than `maximum` answers after it is still found |
| HttpParser.ParseHttpRequest | app/src/main/jni/http_parser.cpp:146-228 | the whole parser, error cases included, computes `Http.Parse` |
| HttpParser.ParseRest | app/src/main/jni/http_parser.cpp:172-227 | from the search for the blank line on, with the head's size limit and the missing length of a POST |
| HttpParser.ReadHeaders | app/src/main/jni/http_parser.cpp:177-219 | the header loop on buffer positions is a fold over the header lines |
| HttpParser.Trimmed | app/src/main/jni/http_parser.cpp:15-23 | blanks are removed on both sides |
| HttpParser.Lowered | app/src/main/jni/http_parser.cpp:25-31 | every letter is lowered in its place |
| HttpParser.IsValidPath | app/src/main/jni/http_parser.cpp:33-49 | exactly the absolute paths without dots, back-slashes, escapes, queries and control bytes |
| Http.ProperPrefix | app/src/main/jni/http_parser.cpp:146-228 | what the parser says to every proper prefix of a complete request |
| Http.WaitsForTheWholeRequest | app/src/main/jni/http_parser.cpp:146-228 | all proper prefixes are INCOMPLETE if and only if the request line is shorter than its limit |
| Http.LaterBytesAreInert | app/src/main/jni/http_parser.cpp:146-228 | bytes without NUL after a complete request change neither the request nor its length |
| Http.AcceptedRequest | app/src/main/jni/http_parser.cpp:165-228 | an accepted request fits maxHeaders + maxBody, ends with its body, every Content-Length gives that body's length, a POST has one, PIN and content type are those of the last such header |
| Http.FindIsFirst | app/src/main/jni/http_parser.cpp:150-172 | searching gives the first occurrence, or none if there is none |
| Rendering.RequestsComeBack | app/src/main/jni/http_parser.cpp:146-228 | a rendered request whose length fields are the decimal length of its body, whose codings are identity and whose PIN fields agree is parsed, whatever follows it, to its verb, path, that PIN, the lower-cased last content type and its body, and consumes exactly the rendering |
| Rendering.DecimalLength | app/src/main/jni/http_parser.cpp:199-202 | strtoul reads every decimal up to its maximum back |
| Rendering.HeaderlessRequests | app/src/main/jni/http_parser.cpp:172-227 | the outcome of a request without header lines, and exactly when it is accepted and when it is incomplete |
| Rendering.HeaderlessExample | app/src/main/jni/http_parser.cpp:172-174 | a request without header lines that stays incomplete until one more CRLF |
| Rendering.LongLineExample | app/src/main/jni/http_parser.cpp:151-155 | a request that is accepted although its first 2049 bytes are refused |
| Json.JsonEscape | app/src/main/jni/json_writer.cpp:7-45 | the loop appends each character's escape |
| Json.EscapeIsInjective | app/src/main/jni/json_writer.cpp:7-45 | no two strings have the same escaped form |
| Json.QuotedStringsComeBack | app/src/main/jni/http_parser.cpp:69-104 | reading a quoted string returns it if and only if it has at most 128 characters and its control bytes have one-letter escapes |
| Json.DecimalsComeBack | app/src/main/jni/http_parser.cpp:105-123 | what reading a decimal returns for every integer: itself, saturation, or refusal |
| Cursor.JsonCursor.Ws | app/src/main/jni/http_parser.cpp:54-57 | skips exactly the leading spaces |
| Cursor.JsonCursor.Take | app/src/main/jni/http_parser.cpp:58-64 | takes one character after spaces, or leaves it |
| Cursor.JsonCursor.StringValue | app/src/main/jni/http_parser.cpp:69-104 | the in-place loop reads what `Json.ReadString` reads and stops behind it |
| Cursor.JsonCursor.IntegerValue | app/src/main/jni/http_parser.cpp:105-123 | the same for `Json.ReadInteger` |
| Cursor.JsonCursor.BoolValue | app/src/main/jni/http_parser.cpp:124-136 | the same for `Json.ReadBool` |
| Bodies.ValidId | app/src/main/jni/http_parser.cpp:230-239 | 1 to 64 letters, digits and "-_.:" |
| Bodies.ParseCaptureJson | app/src/main/jni/http_parser.cpp:241-272 | the one-pass loop with its three flags computes `Bodies.ParseCapture` |
| Bodies.ParseFocusJson | app/src/main/jni/http_parser.cpp:274-279 | the chain of cursor calls computes `Bodies.ParseFocus` |
| Bodies.FocusBodiesComeBack | app/src/main/jni/http_parser.cpp:274-279 | a rendered flag, with spaces anywhere, is accepted with its value if and only if its key is "pressed" |
| Bodies.AcceptedBodies | app/src/main/jni/http_parser.cpp:241-272 | a body is accepted if and only if its members, read without looking at repetitions, are one id, one delay and one autofocus flag in some order, nothing follows and the id is valid |
| Bodies.CaptureBodiesComeBack | app/src/main/jni/http_parser.cpp:241-272 | a rendering of members in any order with any spaces is accepted, with their values, if and only if each of the three is there once and the id is valid |
| Runtime.NativeRuntime.HandleRequest | app/src/main/jni/native_runtime.cpp:272-366 | the answer to a request and all that it changes, as `Control.Respond` |
| Runtime.NativeRuntime.HandleCapture | app/src/main/jni/native_runtime.cpp:314-345 | an answer still remembered is repeated; any other is worked out and remembered |
| Runtime.NativeRuntime.Authenticate | app/src/main/jni/native_runtime.cpp:203-211 | the difference loop compares the lengths and the first six characters |
| Runtime.NativeRuntime.StartUp | app/src/main/jni/native_runtime.cpp:73-98 | a start forgets answers and budgets; a server that does not start undoes it |
| Runtime.NativeRuntime.ShutDown | app/src/main/jni/native_runtime.cpp:100-116 | stops the machine and forgets PIN and preview |
| Runtime.NativeRuntime.OnServerTick | app/src/main/jni/native_runtime.cpp:368-374 | ticks the machine only while started |
| Sessions.PinIsCompared | app/src/main/jni/native_runtime.cpp:203-211 | for a PIN of six digits the check is equality |
| Sessions.OnlyCheckedPostsAct | app/src/main/jni/native_runtime.cpp:272-366 | in every run whose PINs have six digits, a request that changes the machine's phase or sends a command reaches a started runtime, is a POST with exactly that PIN, and passed rate limit and content type |
| Sessions.RunGuarded | app/src/main/jni/native_runtime.cpp:73-116 | in every such run a runtime that is not started has no PIN and an idle machine |
| Sessions.PreviewIsGuarded | app/src/main/jni/native_runtime.cpp:290-298 | in every such run the preview is handed out if and only if a GET for it, within its rate, carries the PIN of the moment, which is empty exactly while the runtime is not started |
| Sessions.UnstartedPreviewExample | app/src/main/jni/native_runtime.cpp:100-116 | a preview set while not started is handed out without a PIN |
| Sessions.RunsTheMachine | app/src/main/jni/native_runtime.cpp:73-374 | behind every run of the runtime the machine makes one of its own runs, so its promises hold there too |
| Sessions.RunTracks | app/src/main/jni/native_runtime.cpp:314-345 | in every run of the runtime the deduplicator's list is the window on the answers decided since the start |
| Sessions.AtMostOnce | app/src/main/jni/native_runtime.cpp:314-343 | after a capture was decided, the same id within the retention time, with fewer than `maximum` others decided and no restart, gets the same reply, and the machine only has its clock read |
| Sessions.PicturesAreGranted | app/src/main/jni/native_runtime.cpp:272-366 | the camera never takes more pictures than there were 202 answers decided, half-presses granted and key presses granted |
| Server.HttpServer.ReadClient | app/src/main/jni/http_server.cpp:159-190 | what one recv does to the client at an index, including the size check, the error pages and the handler's call |
| Server.HttpServer.WriteClient | app/src/main/jni/http_server.cpp:192-214 | what one send does, closing exactly when all is sent or the send fails |
| Server.HttpServer.AcceptClient | app/src/main/jni/http_server.cpp:135-157 | appends a newcomer only below `maxClients` |
| Server.HttpServer.CloseClient | app/src/main/jni/http_server.cpp:129-133 | removes the client at an index and keeps the order of the rest |
| Server.HttpServer.AskPoll | app/src/main/jni/http_server.cpp:233-252 | the vector given to poll: wake pipe, listener if any, then each client, watched for input until it has output |
| Server.ClientSlots | app/src/main/jni/http_server.cpp:246-269 | the report at offset + i is that of the client polled at index i |
| Server.HttpServer.TouchClients | app/src/main/jni/http_server.cpp:267-276 | the reverse loop with its erases gives every polled client the report of its own slot, and the newcomer none |
| Server.HttpServer.DropIdle | app/src/main/jni/http_server.cpp:277-283 | the erase loop drops exactly the idle clients |
| Server.HttpServer.PollRound | app/src/main/jni/http_server.cpp:256-283 | one round, from the reports on the whole vector, with the offset behind wake pipe and listener, as a function of the table |
| Server.TouchIsSound | app/src/main/jni/http_server.cpp:159-214 | a connection's handler is called at most once, what is sent is the beginning of its output, and an open client is never done sending |
| Server.ClosedWritersAreDone | app/src/main/jni/http_server.cpp:192-214 | a writer that closes without an error has sent all of its output |
| Server.RoundIsLive | app/src/main/jni/http_server.cpp:246-283 | a round keeps these promises for the whole table, and the table within `maxClients` |
| Server.Table | app/src/main/jni/http_server.cpp:226-284 | so they hold after any number of rounds |
| Server.PiecesAreHandledOnce | app/src/main/jni/http_server.cpp:159-190 | however a request is cut into pieces, the handler is called once, with the same request, when its last byte arrives |
| Preview.SonyCameraController.CaptureCommand | app/src/main/java/io/pihda/legacyalpharemote/SonyCameraController.java:137-142 | a taken picture opens a new generation and posts its delayed task |
| Preview.SonyCameraController.RequestPendingFallback | app/src/main/java/io/pihda/legacyalpharemote/SonyCameraController.java:229-244 | a restarted preview posts a task for the latest generation, not before its deadline |
| Preview.SonyCameraController.TaskRuns | app/src/main/java/io/pihda/legacyalpharemote/SonyCameraController.java:218-226 | a stale task does nothing, a current one registers a frame callback or gives up |
| Preview.SonyCameraController.OnPreviewFrame | app/src/main/java/io/pihda/legacyalpharemote/SonyCameraController.java:252-260 | only the frame of the current generation is queued, and it closes that generation |
| Preview.SonyCameraController.HandleCapturedJpeg | app/src/main/java/io/pihda/legacyalpharemote/SonyCameraController.java:269-279 | an active controller that gets a JPEG waits for no frame any more |
| Preview.SonyCameraController.Stop | app/src/main/java/io/pihda/legacyalpharemote/SonyCameraController.java:77-116 | stopping drops the tasks and the generation |
| Preview.SonyCameraController.OnSurfaceCreated | app/src/main/java/io/pihda/legacyalpharemote/SonyCameraController.java:189-194 | a new surface turns the preview on if camera and controller are ready, and posts nothing |
| Preview.SonyCameraController.OnSurfaceDestroyed | app/src/main/java/io/pihda/legacyalpharemote/SonyCameraController.java:201-207 | a lost surface turns the preview off |
| Preview.RunAgrees | app/src/main/java/io/pihda/legacyalpharemote/SonyCameraController.java:137-279 | over all interleavings generation and deadline describe the capture that still waits, and no task or callback is early |
| Preview.FrameStandsIn | app/src/main/java/io/pihda/legacyalpharemote/SonyCameraController.java:215-279 | a queued frame directly follows its own capture, with no JPEG, failure or stop in between, and not before JPEG_TIMEOUT_MS |
| Preview.OneFramePerCapture | app/src/main/java/io/pihda/legacyalpharemote/SonyCameraController.java:215-279 | no generation queues two frames |
| Preview.HopeStep | app/src/main/java/io/pihda/legacyalpharemote/SonyCameraController.java:179-267 | while a capture waits, its last task or callback is only lost by a task that runs with the preview off, and one only comes back by a command that restarts the preview |
| Preview.WaitingHasHope | app/src/main/java/io/pihda/legacyalpharemote/SonyCameraController.java:137-267 | in every run a waiting capture still has a task or callback exactly when that has not happened |
| Preview.StrandedExample | app/src/main/java/io/pihda/legacyalpharemote/SonyCameraController.java:189-207 | a run that leaves the preview on and a capture waiting with nothing left |

## Left out

- Sockets, pipes, poll, bind, listen, accept, thread start and stop, and the JNI bridge: their results are parameters, and every public call is atomic because one mutex serialises them.
- Poll is taken to report input or room only where it was asked for, send to take no more than it was given, and the handler's replies and the error pages not to be empty, as every HTTP response is.
- When the listener is opened, closed and retried: whether there is one is a parameter of each round.
- The condition `started_` in `NativeRuntime::dispatch` is part of the arbitrary sink, so nothing is claimed about a cancel command sent during shutdown reaching the camera.
- Texts: error messages are constructors, `statusJson` is its fields, response headers and the embedded pages are names; `screenText`, `updateScreen`, logging and number formatting are not modelled.
- Network name, password, address, station count and server error texts are not kept, because no decision reads them; the width, height, version and error text of a preview are not kept either.
- The twelve fields that `clearSchedule` resets are one record field of the class, updated in place.
- `x ^ y` and `|=` in `authenticate` are inequality and disjunction, which agree with them on whether the result is zero.
- Times are unbounded integers and the limiter's doubles are reals: 64-bit overflow and rounding are not modelled.
- Capture generations are unbounded: the wrap-around of a Java `int` is not modelled.
- A 64-bit `long` would refuse ten-digit delays that the 32-bit one saturates; both end in status 400.
- PIN generation: the PIN is a parameter of a start.
- `CommandQueue`, the activity, the key dispatch, receivers, layouts, build scripts, IPv4 validation and the Wi-Fi Direct controller would only add easy members or foreign calls.
- Bitmap decoding, scaling and the preview worker: what a queued frame or JPEG becomes is not modelled, nor is a rejected task.
- Autofocus and shutter calls of the camera controller that touch no generation are left out of its events.
