/** The remote as a tagged union: one constructor per situation, each with only the data it needs.
    `RemoteStateMachine` (StateMachine.dfy) is proved to refine it. */
module Machine {
  import opened Types

  /** What is left to do about autofocus while a capture is pending. */
  datatype Focus = NoFocus | FocusAt(deadline: int) | FocusSent(id: int)

  datatype Phase =
    | Stopped
    | Starting
    | Armed
    | HalfPress(focusId: int)
    | Pending(focus: Focus, captureAt: int)
    | Capturing(captureId: int, physical: bool, focused: bool, releaseAt: int, coolAt: int)
    | Cooldown(captureId: int, releaseId: int, focused: bool, coolAt: int)
    | Error(live: bool)

  datatype Machine = Machine(
    phase: Phase,
    cameraReady: bool,
    wifiReady: bool,
    lastRequestId: Origin,
    lastError: Notice,
    instant: nat,
    log: seq<Order>)

  const INITIAL := Machine(Stopped, false, false, Nobody, Silent, 0, [])

  predicate Running(p: Phase) {
    !p.Stopped? && (p.Error? ==> p.live)
  }

  /** Has autofocus been started and not yet cancelled? */
  predicate Focused(p: Phase) {
    match p
    case HalfPress(_) => true
    case Pending(focus, _) => focus.FocusSent?
    case Capturing(_, _, focused, _, _) => focused
    case Cooldown(_, _, focused, _) => focused
    case _ => false
  }

  /** The state the program shows. */
  function NameOf(p: Phase): RemoteState {
    match p
    case Stopped => STOPPED
    case Starting => STARTING
    case Armed => ARMED
    case HalfPress(_) => FOCUSING
    case Pending(focus, _) => if focus.FocusSent? then FOCUSING else COUNTDOWN
    case Capturing(_, _, _, _, _) => CAPTURING
    case Cooldown(_, _, _, _) => COOLDOWN
    case Error(_) => ERROR
  }

  /** The id whose reported failure stops the machine; 0 when there is none. */
  function CaptureId(p: Phase): int {
    match p
    case Capturing(id, _, _, _, _) => id
    case Cooldown(id, _, _, _) => id
    case _ => 0
  }

  function ReleaseId(p: Phase): int {
    if p.Cooldown? then p.releaseId else 0
  }

  function RestPhase(m: Machine): Phase {
    if m.cameraReady && m.wifiReady then Armed else Starting
  }

  // ---------------------------------------------------------------- commands

  function Now(w: World, m: Machine): int {
    w.At(m.instant)
  }

  predicate WillAccept(w: World, m: Machine) {
    w.Accepts(|m.log| + 1)
  }

  function Offer(w: World, m: Machine, kind: Command): Machine {
    m.(instant := m.instant + 1,
       log := m.log + [Order(|m.log| + 1, kind, Now(w, m), WillAccept(w, m))])
  }

  function Failed(m: Machine, error: Notice): Machine {
    m.(phase := Error(Running(m.phase)), lastError := error)
  }

  /** Offer a command; a refusal is an error. */
  function Send(w: World, m: Machine, kind: Command, next: Phase): Machine {
    if WillAccept(w, m) then Offer(w, m, kind).(phase := next)
    else Failed(Offer(w, m, kind), QueueFull)
  }

  /** Cancel autofocus if it is on; the caller decides the phase, so a refusal only leaves its text. */
  function Unfocus(w: World, m: Machine): Machine {
    if !Focused(m.phase) then m
    else if WillAccept(w, m) then Offer(w, m, CancelAutofocus)
    else Offer(w, m, CancelAutofocus).(lastError := QueueFull)
  }

  function BeginCapture(cfg: Config, w: World, m: Machine, physical: bool, focused: bool): Machine {
    var sent := Offer(w, m, Capture);
    if !WillAccept(w, m) then Failed(sent, QueueFull)
    else
      var now := Now(w, sent);
      var hold := if physical then cfg.physicalShutterFailsafeMs else cfg.webShutterHoldMs;
      sent.(instant := sent.instant + 1,
            phase := Capturing(|m.log| + 1, physical, focused, now + hold, now + cfg.cooldownMs))
  }

  /** A capture replaces whatever phase of a running machine came before it. */
  lemma CaptureForgetsPhase(cfg: Config, w: World, m: Machine, p: Phase, focused: bool)
    requires Running(m.phase) && Running(p)
    ensures BeginCapture(cfg, w, m, true, focused) == BeginCapture(cfg, w, m.(phase := p), true, focused)
  {
  }

  // ---------------------------------------------------------------- calls

  function Start(m: Machine): Machine {
    if Running(m.phase) then m else m.(lastError := Silent, phase := RestPhase(m))
  }

  function Stop(w: World, m: Machine): Machine {
    if m.phase.Stopped? then m else Unfocus(w, m).(phase := Stopped)
  }

  function Readied(m: Machine): Machine {
    if m.phase.Starting? && m.cameraReady && m.wifiReady then m.(phase := Armed) else m
  }

  function SetCameraReady(m: Machine, ready: bool): Machine {
    var n := m.(cameraReady := ready);
    if !ready && Running(m.phase) then n.(phase := Starting) else Readied(n)
  }

  function SetWifiReady(m: Machine, ready: bool): Machine {
    var n := m.(wifiReady := ready);
    if !ready && Running(m.phase) then n.(phase := Starting) else Readied(n)
  }

  /** When the capture of a request read at `now` is due. */
  function Due(cfg: Config, now: int, delay: int, autofocus: bool): int {
    now + if delay == 0 && autofocus then cfg.immediateAutofocusLeadMs else delay
  }

  /** Autofocus leads the capture by `autofocusLeadMs`, but never starts in the past. */
  function Schedule(cfg: Config, now: int, delay: int, autofocus: bool): Phase {
    var focusAt := now + delay - cfg.autofocusLeadMs;
    Pending(if !autofocus then NoFocus
            else if delay == 0 || focusAt < now then FocusAt(now)
            else FocusAt(focusAt),
            Due(cfg, now, delay, autofocus))
  }

  predicate Grantable(cfg: Config, m: Machine, delay: int) {
    m.phase.Armed? && 0 <= delay <= cfg.maxDelayMs
  }

  /** The machine once an accepted request is written down, before its first tick. */
  function Scheduled(cfg: Config, w: World, m: Machine, requestId: string, delay: int, autofocus: bool): Machine {
    m.(instant := m.instant + 1, lastRequestId := Web(requestId), lastError := Silent,
       phase := Schedule(cfg, Now(w, m), delay, autofocus))
  }

  function Request(cfg: Config, w: World, m: Machine, requestId: string, delay: int, autofocus: bool)
    : (Machine, bool, Notice)
  {
    if !m.phase.Armed? then (m, false, RemoteBusy)
    else if !Grantable(cfg, m, delay) then (m, false, DelayOutOfRange)
    else
      var t := Tick(cfg, w, Scheduled(cfg, w, m, requestId, delay, autofocus));
      (t, !t.phase.Error?, Silent)
  }

  function CancelCountdown(w: World, m: Machine): (Machine, bool, Notice) {
    if !m.phase.Pending? && !m.phase.HalfPress? then (m, false, NotCancellable)
    else (Unfocus(w, m).(phase := RestPhase(m)), true, Silent)
  }

  function SetFocus(w: World, m: Machine, pressed: bool): (Machine, bool, Notice) {
    if pressed then
      if !m.phase.Armed? then (m, false, RemoteBusy)
      else (Send(w, m, StartAutofocus, HalfPress(|m.log| + 1)), WillAccept(w, m), Silent)
    else
      if !m.phase.HalfPress? then (m, false, FocusInactive)
      else (Unfocus(w, m).(phase := RestPhase(m)), true, Silent)
  }

  /** The shutter key is let go: the release is due now. */
  function LetGo(w: World, m: Machine): Machine
    requires m.phase.Capturing?
  {
    m.(instant := m.instant + 1, phase := m.phase.(releaseAt := Now(w, m)))
  }

  /** The shutter key is pressed: whatever was pending gives way. */
  function Pressed(w: World, m: Machine): Machine {
    (if m.phase.Pending? then Unfocus(w, m) else m).(lastRequestId := Physical, lastError := Silent)
  }

  function Shutter(cfg: Config, w: World, m: Machine, pressed: bool): (Machine, bool, Notice) {
    if !pressed then
      if m.phase.Capturing? && m.phase.physical && m.phase.releaseAt > 0 then
        (Tick(cfg, w, LetGo(w, m)), true, Silent)
      else (m, true, Silent)
    else if !Running(m.phase) || !m.cameraReady then (m, false, CameraNotReady)
    else if !m.phase.Pending? && !m.phase.Armed? && !m.phase.HalfPress? then (m, false, CameraBusy)
    else
      var t := BeginCapture(cfg, w, Pressed(w, m), true, m.phase.HalfPress?);
      (t, !t.phase.Error?, Silent)
  }

  /** The capture of a tick that read `now`; a half-press has no deadline of its own. */
  function CaptureIfDue(cfg: Config, w: World, m: Machine, now: int): Machine {
    if m.phase.Pending? && now < m.phase.captureAt then m
    else BeginCapture(cfg, w, m, false, Focused(m.phase))
  }

  function CoolIfDue(m: Machine, now: int): Machine
    requires m.phase.Cooldown?
  {
    if now < m.phase.coolAt then m else m.(phase := RestPhase(m))
  }

  /** Autofocus, when a pending request wants it by `now`. */
  function TickFocus(w: World, m: Machine, now: int): Machine {
    if m.phase.Pending? && m.phase.focus.FocusAt? && m.phase.focus.deadline <= now then
      Send(w, m, StartAutofocus, Pending(FocusSent(|m.log| + 1), m.phase.captureAt))
    else m
  }

  function Tick(cfg: Config, w: World, m: Machine): Machine {
    if !Running(m.phase) then m
    else
      var now := Now(w, m);
      var n := m.(instant := m.instant + 1);
      match m.phase
      case Pending(_, _) =>
        var f := TickFocus(w, n, now);
        if f.phase.Error? then f else CaptureIfDue(cfg, w, f, now)
      case HalfPress(_) => CaptureIfDue(cfg, w, n, now)
      case Capturing(captureId, _, focused, releaseAt, coolAt) =>
        if releaseAt <= 0 || now < releaseAt then n
        else
          var r := Send(w, n, ReleaseShutter, Cooldown(captureId, |m.log| + 1, focused, coolAt));
          if r.phase.Error? then r else CoolIfDue(r, now)
      case Cooldown(_, _, _, _) => CoolIfDue(n, now)
      case _ => n
  }

  // The steps of a tick in the order the program takes them, after `TickFocus`.

  function TickCapture(cfg: Config, w: World, m: Machine, now: int): Machine {
    if m.phase.Pending? || m.phase.HalfPress? then CaptureIfDue(cfg, w, m, now) else m
  }

  function TickRelease(w: World, m: Machine, now: int): Machine {
    if m.phase.Capturing? && 0 < m.phase.releaseAt <= now then
      Send(w, m, ReleaseShutter,
           Cooldown(m.phase.captureId, |m.log| + 1, m.phase.focused, m.phase.coolAt))
    else m
  }

  function TickCool(m: Machine, now: int): Machine {
    if m.phase.Cooldown? then CoolIfDue(m, now) else m
  }

  /** A capture begun by a tick that read `now` is neither released nor cooled by that tick. */
  lemma CaptureOutlivesTick(cfg: Config, w: World, m: Machine, focused: bool, now: int)
    requires now <= Now(w, m)
    ensures var c := BeginCapture(cfg, w, m, false, focused);
            TickCool(TickRelease(w, c, now), now) == c
  {
    w.Monotone(m.instant, m.instant + 1);
  }

  /** Taking the four steps in a row is the same as the one case of `Tick` that applies. */
  lemma StepsOfTick(cfg: Config, w: World, m: Machine, f: Machine, c: Machine, r: Machine)
    requires Running(m.phase)
    requires f == TickFocus(w, m.(instant := m.instant + 1), Now(w, m))
    requires c == TickCapture(cfg, w, f, Now(w, m))
    requires r == TickRelease(w, c, Now(w, m))
    ensures Tick(cfg, w, m) == TickCool(r, Now(w, m))
  {
    w.Monotone(m.instant, f.instant);
    if f.phase.Pending? || f.phase.HalfPress? {
      CaptureOutlivesTick(cfg, w, f, Focused(f.phase), Now(w, m));
    }
  }

  function Report(m: Machine, id: int, code: int, message: string): Machine {
    if code == 0 then m
    else if id == CaptureId(m.phase) then Failed(m, if message == "" then CaptureFailed else Reported(message))
    else if m.phase.Pending? && m.phase.focus.FocusSent? && id == m.phase.focus.id then
      m.(lastError := if message == "" then AutofocusFailed else Reported(message), phase := Armed)
    else if id == ReleaseId(m.phase) then
      m.(lastError := if message == "" then ReleaseFailed else Reported(message))
    else m
  }

  function CountdownRemaining(w: World, m: Machine): int {
    if !m.phase.Pending? || m.phase.captureAt <= 0 || m.phase.captureAt <= Now(w, m) then 0
    else m.phase.captureAt - Now(w, m)
  }

  /** The machine after the countdown was asked for: the clock is read only while a capture is pending. */
  function Looked(m: Machine): Machine {
    if m.phase.Pending? && 0 < m.phase.captureAt then m.(instant := m.instant + 1) else m
  }

  // ---------------------------------------------------------------- runs

  datatype Event =
    | StartCall
    | StopCall
    | CameraReadyCall(ready: bool)
    | WifiReadyCall(ready: bool)
    | RequestCall(requestId: string, delay: int, autofocus: bool)
    | CancelCall
    | FocusCall(pressed: bool)
    | ShutterCall(pressed: bool)
    | TickCall
    | ReportCall(id: int, code: int, message: string)
    | ClockRead

  /** One call, or a clock read by somebody else, and whether it returned true (calls without a result
      count as true). */
  function Step(cfg: Config, w: World, m: Machine, e: Event): (Machine, bool) {
    match e
    case StartCall => (Start(m), true)
    case StopCall => (Stop(w, m), true)
    case CameraReadyCall(ready) => (SetCameraReady(m, ready), true)
    case WifiReadyCall(ready) => (SetWifiReady(m, ready), true)
    case RequestCall(id, delay, autofocus) => var r := Request(cfg, w, m, id, delay, autofocus); (r.0, r.1)
    case CancelCall => var r := CancelCountdown(w, m); (r.0, r.1)
    case FocusCall(pressed) => var r := SetFocus(w, m, pressed); (r.0, r.1)
    case ShutterCall(pressed) => var r := Shutter(cfg, w, m, pressed); (r.0, r.1)
    case TickCall => (Tick(cfg, w, m), true)
    case ReportCall(id, code, message) => (Report(m, id, code, message), true)
    case ClockRead => (m.(instant := m.instant + 1), true)
  }

  function Run(cfg: Config, w: World, events: seq<Event>): Machine {
    if events == [] then INITIAL
    else Step(cfg, w, Run(cfg, w, events[..|events| - 1]), events[|events| - 1]).0
  }
}
