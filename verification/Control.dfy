/** What the native runtime answers to a request, and what it does to everything behind it. */
module Control {
  import opened Types
  import opened Deduplication
  import opened Bodies
  import Http
  import M = Machine
  import RateLimiting

  datatype Setup = Setup(cfg: Config, memory: Memory, mutations: RateLimiting.Limits, statuses: RateLimiting.Limits)
  {
    predicate Valid() {
      memory.Valid() && mutations.Valid() && statuses.Valid()
    }
  }

  const NATIVE_SETUP := Setup(NATIVE_CONFIG, Memory(64, NATIVE_CONFIG.dedupeRetentionMs),
                              RateLimiting.Limits(6.0, 0.001, 16), RateLimiting.Limits(20.0, 0.004, 16))

  /** Everything the runtime keeps between calls. */
  datatype Control = Control(
    machine: M.Machine,
    started: bool,
    pin: string,
    preview: string,
    entries: seq<Entry>,
    mutations: seq<RateLimiting.Bucket>,
    statuses: seq<RateLimiting.Bucket>)

  datatype Trouble =
    | RateLimited | PinRequired | JsonRequired | InvalidCapture | InvalidCancel | InvalidFocus
    | NotFound | NoPreview | NotAllowed | Refused(error: Notice)

  datatype Reply =
    | Problem(status: int, trouble: Trouble)
    | Asset(endpoint: Endpoint)
    | StatusReport(state: RemoteState, cameraReady: bool, wifiReady: bool, countdown: int,
                   lastRequestId: Origin, lastError: Notice)
    | Jpeg(data: string)
    | CaptureReply(status: int, body: Body)
    | Cancelled
    | FocusSet

  datatype Endpoint = Index | Style | Script | Status | Preview | Capture | Cancel | Focus | Unknown

  function EndpointOf(verb: string, path: string): Endpoint {
    if verb == "GET" then
      if path == "/" then Index
      else if path == "/style.css" then Style
      else if path == "/app.js" then Script
      else if path == "/api/v1/status" then Status
      else if path == "/api/v1/preview.jpg" then Preview
      else Unknown
    else
      if path == "/api/v1/capture" then Endpoint.Capture
      else if path == "/api/v1/cancel" then Cancel
      else if path == "/api/v1/focus" then Focus
      else Unknown
  }

  const PIN_LENGTH := 6

  /** The PIN check looks at both lengths and at the first `PIN_LENGTH` characters. */
  predicate Authentic(pin: string, candidate: string) {
    |candidate| == |pin| && forall i :: 0 <= i < |pin| && i < PIN_LENGTH ==> candidate[i] == pin[i]
  }

  predicate IsJson(contentType: string) {
    contentType == "application/json" || "application/json;" <= contentType
  }

  // ---------------------------------------------------------------- POST

  /** What a new capture request gets: the machine after it, a status and a body. */
  function Decide(cfg: Config, w: World, m: M.Machine, c: CaptureRequest): (M.Machine, int, Body) {
    if c.delayMs < 0 || cfg.maxDelayMs < c.delayMs then (m, 400, BadDelay)
    else
      var (t, ok, error) := M.Request(cfg, w, m, c.requestId, c.delayMs, c.autofocus);
      if ok then (t, 202, Taken(c.requestId, M.NameOf(t.phase))) else (t, 409, NotAccepted(c.requestId, error))
  }

  /** An answer still remembered is given again; any other is worked out and remembered. */
  function AnswerCapture(s: Setup, w: World, r: Control, c: CaptureRequest, now: int): (Control, Reply) {
    var kept := Prune(r.entries, now);
    match Lookup(kept, c.requestId)
    case Some(e) => (r.(entries := kept), CaptureReply(e.status, e.body))
    case None =>
      var (m, status, body) := Decide(s.cfg, w, r.machine, c);
      (r.(machine := m, entries := RememberStep(s.memory, kept, c.requestId, status, body, now)),
       CaptureReply(status, body))
  }

  function AnswerCancel(w: World, r: Control, body: string): (Control, Reply) {
    if body != "{}" && body != "" then (r, Problem(400, InvalidCancel))
    else
      var (m, ok, error) := M.CancelCountdown(w, r.machine);
      (r.(machine := m), if ok then Cancelled else Problem(409, Refused(error)))
  }

  function AnswerFocus(w: World, r: Control, body: string): (Control, Reply) {
    match ParseFocus(body)
    case None => (r, Problem(400, InvalidFocus))
    case Some(pressed) =>
      var (m, ok, error) := M.SetFocus(w, r.machine, pressed);
      (r.(machine := m), if ok then FocusSet else Problem(409, Refused(error)))
  }

  function AnswerPost(s: Setup, w: World, r: Control, endpoint: Endpoint, body: string, now: int): (Control, Reply) {
    match endpoint
    case Capture =>
      (match ParseCapture(body)
       case None => (r, Problem(400, InvalidCapture))
       case Some(c) => AnswerCapture(s, w, r, c, now))
    case Cancel => AnswerCancel(w, r, body)
    case Focus => AnswerFocus(w, r, body)
    case _ => (r, Problem(404, NotFound))
  }

  /** The three checks every POST goes through, in order. */
  function Check(s: Setup, r: Control, request: Http.HttpRequest, peer: string, now: int): (Control, Option<Reply>)
    requires s.Valid()
  {
    var (buckets, ok) := RateLimiting.AllowStep(s.mutations, r.mutations, peer, now);
    (r.(mutations := buckets),
     if !ok then Some(Problem(429, RateLimited))
     else if !Authentic(r.pin, request.pin) then Some(Problem(401, PinRequired))
     else if !IsJson(request.contentType) then Some(Problem(415, JsonRequired))
     else None)
  }

  function ServePost(s: Setup, w: World, r: Control, request: Http.HttpRequest, peer: string, now: int)
    : (Control, Reply)
    requires s.Valid()
  {
    var (checked, trouble) := Check(s, r, request, peer, now);
    match trouble
    case Some(reply) => (checked, reply)
    case None => AnswerPost(s, w, checked, EndpointOf(request.verb, request.path), request.body, now)
  }

  // ---------------------------------------------------------------- GET

  function AnswerGet(w: World, r: Control, endpoint: Endpoint, pin: string): (Control, Reply) {
    match endpoint
    case Status =>
      (r.(machine := M.Looked(r.machine)),
       StatusReport(M.NameOf(r.machine.phase), r.machine.cameraReady, r.machine.wifiReady,
                    M.CountdownRemaining(w, r.machine), r.machine.lastRequestId, r.machine.lastError))
    case Preview =>
      (r, if !Authentic(r.pin, pin) then Problem(401, PinRequired)
          else if r.preview == "" then Problem(404, NoPreview)
          else Jpeg(r.preview))
    case Unknown => (r, Problem(404, NotFound))
    case _ => (r, Asset(endpoint))
  }

  function ServeGet(s: Setup, w: World, r: Control, request: Http.HttpRequest, peer: string, now: int): (Control, Reply)
    requires s.Valid()
  {
    var (buckets, ok) := RateLimiting.AllowStep(s.statuses, r.statuses, peer, now);
    var counted := r.(statuses := buckets);
    if !ok then (counted, Problem(429, RateLimited))
    else AnswerGet(w, counted, EndpointOf(request.verb, request.path), request.pin)
  }

  // ---------------------------------------------------------------- any request

  function Clocked(r: Control): Control {
    r.(machine := r.machine.(instant := r.machine.instant + 1))
  }

  function Respond(s: Setup, w: World, r: Control, request: Http.HttpRequest, peer: string): (Control, Reply)
    requires s.Valid()
  {
    var now := M.Now(w, r.machine);
    if request.verb == "GET" then ServeGet(s, w, Clocked(r), request, peer, now)
    else if request.verb != "POST" then (Clocked(r), Problem(405, NotAllowed))
    else ServePost(s, w, Clocked(r), request, peer, now)
  }

  // ---------------------------------------------------------------- every call of the runtime

  datatype Call =
    | StartUp(pin: string, serverStarts: bool)
    | ShutDown
    | ServerTick
    | Request(request: Http.HttpRequest, peer: string)
    | CameraReady(ready: bool)
    | WifiReady(ready: bool)
    | CommandResult(id: int, code: int, message: string)
    | FocusKey(pressed: bool)
    | ShutterKey(pressed: bool)
    | SetPreview(data: string)

  /** A fresh start forgets answers, budgets and preview; a server that does not start undoes the rest. */
  function Open(w: World, r: Control, pin: string, serverStarts: bool): Control {
    if r.started then r
    else
      var m := M.Start(r.machine);
      Control(if serverStarts then m else M.Stop(w, m), serverStarts, if serverStarts then pin else "", "", [], [], [])
  }

  function Close(w: World, r: Control): Control {
    if !r.started then r else r.(machine := M.Stop(w, r.machine), started := false, pin := "", preview := "")
  }

  const MAX_PREVIEW := 1572864

  /** The event the machine gets from a call that goes straight to it. */
  function Direct(call: Call): Option<M.Event> {
    match call
    case CameraReady(ready) => Some(M.CameraReadyCall(ready))
    case WifiReady(ready) => Some(M.WifiReadyCall(ready))
    case CommandResult(id, code, message) => Some(M.ReportCall(id, code, message))
    case FocusKey(pressed) => Some(M.FocusCall(pressed))
    case ShutterKey(pressed) => Some(M.ShutterCall(pressed))
    case _ => None
  }

  function Step(s: Setup, w: World, r: Control, call: Call): Control
    requires s.Valid()
  {
    match call
    case StartUp(pin, serverStarts) => Open(w, r, pin, serverStarts)
    case ShutDown => Close(w, r)
    case ServerTick => if r.started then r.(machine := M.Tick(s.cfg, w, r.machine)) else r
    case Request(request, peer) => Respond(s, w, r, request, peer).0
    case SetPreview(data) => if data == "" || MAX_PREVIEW < |data| then r else r.(preview := data)
    case _ => r.(machine := M.Step(s.cfg, w, r.machine, Direct(call).value).0)
  }

  const FIRST := Control(M.INITIAL, false, "", "", [], [], [])

  function After(s: Setup, w: World, calls: seq<Call>): Control
    requires s.Valid()
  {
    if calls == [] then FIRST
    else Step(s, w, After(s, w, calls[..|calls| - 1]), calls[|calls| - 1])
  }
}
