/** The remote's state machine as the program keeps it: an enum, five flags, four deadlines and
    three live command ids, updated in place. Every call is proved to act as the tagged union of
    Machine.dfy does, whatever the sink answers. */
module StateMachine {
  import opened Types
  import M = Machine

  /** The clock and the command sink. */
  class Environment {
    const world: World
    var instant: nat
    var log: seq<Order>

    constructor (world: World)
      ensures this.world == world && instant == 0 && log == []
    {
      this.world := world;
      instant, log := 0, [];
    }

    method NowMs() returns (now: int)
      modifies this`instant
      ensures now == world.At(old(instant)) && instant == old(instant) + 1
    {
      now := world.At(instant);
      instant := instant + 1;
    }

    method Dispatch(id: int, kind: Command) returns (accepted: bool)
      modifies this
      ensures instant == old(instant) + 1
      ensures accepted == world.Accepts(id)
      ensures log == old(log) + [Order(id, kind, world.At(old(instant)), accepted)]
    {
      accepted := world.Accepts(id);
      log := log + [Order(id, kind, world.At(instant), accepted)];
      instant := instant + 1;
    }
  }

  /** What `clearSchedule` resets: live command ids (0 when none), deadlines and flags. */
  datatype Schedule = Schedule(
    focusCommandId: int,
    captureCommandId: int,
    releaseCommandId: int,
    focusDeadlineMs: int,
    captureDeadlineMs: int,
    releaseDeadlineMs: int,
    cooldownDeadlineMs: int,
    autofocusRequested: bool,
    focusSent: bool,
    captureSent: bool,
    physicalCapture: bool,
    standaloneFocus: bool)

  const CLEAR := Schedule(0, 0, 0, 0, 0, 0, 0, false, false, false, false, false)

  /** Which state goes with which readiness. */
  ghost predicate Ready(state: RemoteState, running: bool, cameraReady: bool, wifiReady: bool) {
    match state
    case STOPPED => !running
    case STARTING => running && !(cameraReady && wifiReady)
    case ERROR => true
    case _ => running && cameraReady && wifiReady
  }

  /** What the schedule looks like in each state; live ids are ordered and already given out. */
  ghost predicate Fits(state: RemoteState, s: Schedule, nextCommandId: int) {
    match state
    case COUNTDOWN =>
      && !s.focusSent && !s.captureSent && !s.standaloneFocus
      && s.focusCommandId == s.captureCommandId == s.releaseCommandId == 0
    case FOCUSING =>
      && !s.captureSent && s.captureCommandId == s.releaseCommandId == 0
      && (if s.focusSent then 0 < s.focusCommandId < nextCommandId
          else s.focusCommandId == 0 && !s.standaloneFocus)
      && (s.standaloneFocus ==> !s.autofocusRequested && s.captureDeadlineMs == 0)
    case CAPTURING =>
      && s.captureSent && !s.standaloneFocus && s.releaseCommandId == 0
      && (if s.focusSent then 0 < s.focusCommandId else s.focusCommandId == 0)
      && s.focusCommandId < s.captureCommandId < nextCommandId
    case COOLDOWN =>
      && s.captureSent && !s.standaloneFocus
      && (if s.focusSent then 0 < s.focusCommandId else s.focusCommandId == 0)
      && s.focusCommandId < s.captureCommandId < s.releaseCommandId < nextCommandId
    case _ => s == CLEAR
  }

  ghost function PhaseOf(state: RemoteState, s: Schedule, running: bool): M.Phase {
    match state
    case STOPPED => M.Stopped
    case STARTING => M.Starting
    case ARMED => M.Armed
    case ERROR => M.Error(running)
    case CAPTURING =>
      M.Capturing(s.captureCommandId, s.physicalCapture, s.focusSent, s.releaseDeadlineMs, s.cooldownDeadlineMs)
    case COOLDOWN => M.Cooldown(s.captureCommandId, s.releaseCommandId, s.focusSent, s.cooldownDeadlineMs)
    case _ =>
      if s.standaloneFocus then M.HalfPress(s.focusCommandId)
      else M.Pending(if s.focusSent then M.FocusSent(s.focusCommandId)
                     else if s.autofocusRequested then M.FocusAt(s.focusDeadlineMs)
                     else M.NoFocus,
                     s.captureDeadlineMs)
  }

  class RemoteStateMachine {
    const config: Config
    const env: Environment
    var state: RemoteState
    var running: bool
    var cameraReady: bool
    var wifiReady: bool
    var nextCommandId: int
    var schedule: Schedule
    var lastRequestId: Origin
    var lastError: Notice

    /** Holds inside a call too, once a capture request has been written down. */
    ghost predicate Consistent()
      reads this, env
    {
      && Ready(state, running, cameraReady, wifiReady)
      && nextCommandId == |env.log| + 1
      && Fits(state, schedule, nextCommandId)
    }

    /** The invariant between calls. */
    ghost predicate Valid()
      reads this, env
    {
      Consistent() && (state.FOCUSING? ==> schedule.focusSent)
    }

    ghost function Abs(): M.Machine
      reads this, env
    {
      M.Machine(PhaseOf(state, schedule, running), cameraReady, wifiReady,
                lastRequestId, lastError, env.instant, env.log)
    }

    /** The union still tells which state the enum is in. */
    lemma StateIsNamed()
      requires Valid()
      ensures M.NameOf(Abs().phase) == state
    {
    }

    constructor (config: Config, env: Environment)
      requires env.instant == 0 && env.log == []
      ensures Valid() && Abs() == M.INITIAL
      ensures this.config == config && this.env == env
    {
      this.config, this.env := config, env;
      state, running, cameraReady, wifiReady := STOPPED, false, false, false;
      nextCommandId, schedule := 1, CLEAR;
      lastRequestId, lastError := Nobody, Silent;
    }

    // -------------------------------------------------------------- private steps

    method ClearSchedule()
      modifies `schedule
      ensures schedule == CLEAR
    {
      schedule := CLEAR;
    }

    method Fail(error: Notice)
      modifies `state, `schedule, `lastError
      ensures schedule == CLEAR && state == ERROR && lastError == error
    {
      lastError := error;
      ClearSchedule();
      state := ERROR;
    }

    /** `id` is only meaningful when the command was accepted. */
    method Send(kind: Command) returns (ok: bool, id: int)
      requires nextCommandId == |env.log| + 1
      modifies `nextCommandId, `state, `schedule, `lastError, env
      ensures nextCommandId == |env.log| + 1 && id == old(nextCommandId)
      ensures ok == env.world.Accepts(id) && env.instant == old(env.instant) + 1
      ensures env.log == old(env.log) + [Order(id, kind, env.world.At(old(env.instant)), ok)]
      ensures ok ==> unchanged(`state, `schedule, `lastError)
      ensures !ok ==> schedule == CLEAR && state == ERROR && lastError == QueueFull
    {
      id := nextCommandId;
      nextCommandId := nextCommandId + 1;
      ok := env.Dispatch(id, kind);
      if !ok {
        Fail(QueueFull);
      }
    }

    method BeginCapture(physical: bool)
      requires Consistent() && running && cameraReady && wifiReady
      requires !schedule.captureSent
      modifies this, env
      ensures Valid()
      ensures Abs() == M.BeginCapture(config, env.world, old(Abs()), physical, old(schedule.focusSent))
    {
      schedule := schedule.(physicalCapture := physical, captureSent := true, standaloneFocus := false);
      var ok, id := Send(Capture);
      if !ok {
        return;
      }
      var now := env.NowMs();
      var hold := if physical then config.physicalShutterFailsafeMs else config.webShutterHoldMs;
      schedule := schedule.(captureCommandId := id,
                            releaseDeadlineMs := now + hold,
                            cooldownDeadlineMs := now + config.cooldownMs);
      state := CAPTURING;
    }

    /** The deadlines of a web request, written down before its first tick. */
    method Plan(now: int, delayMs: int, autofocus: bool)
      requires Valid() && state.ARMED? && 0 <= delayMs
      modifies this
      ensures Consistent() && Abs() == old(Abs()).(phase := M.Schedule(config, now, delayMs, autofocus))
      ensures state.FOCUSING? ==> schedule.autofocusRequested && schedule.focusDeadlineMs <= now
      ensures running
    {
      schedule := schedule.(autofocusRequested := autofocus);
      schedule := schedule.(captureDeadlineMs := now + delayMs);
      schedule := schedule.(focusDeadlineMs :=
                              if autofocus then schedule.captureDeadlineMs - config.autofocusLeadMs else 0);
      if delayMs == 0 && autofocus {
        schedule := schedule.(captureDeadlineMs := now + config.immediateAutofocusLeadMs);
        schedule := schedule.(focusDeadlineMs := now);
      }
      if autofocus && schedule.focusDeadlineMs < now {
        schedule := schedule.(focusDeadlineMs := now);
      }
      state := if delayMs > 0 then COUNTDOWN else if autofocus then FOCUSING else COUNTDOWN;
    }

    // -------------------------------------------------------------- calls

    method Start()
      requires Valid()
      modifies this
      ensures Valid() && Abs() == M.Start(old(Abs()))
    {
      if running {
        return;
      }
      running := true;
      lastError := Silent;
      ClearSchedule();
      state := STARTING;
      if cameraReady && wifiReady {
        state := ARMED;
      }
    }

    method Stop()
      requires Valid()
      modifies this, env
      ensures Valid() && Abs() == M.Stop(env.world, old(Abs()))
    {
      if !running && state.STOPPED? {
        return;
      }
      if schedule.focusSent {
        var _, _ := Send(CancelAutofocus);
      }
      ClearSchedule();
      running := false;
      state := STOPPED;
    }

    method SetCameraReady(ready: bool)
      requires Valid()
      modifies this
      ensures Valid() && Abs() == M.SetCameraReady(old(Abs()), ready)
    {
      cameraReady := ready;
      if !running {
        return;
      }
      if !ready {
        ClearSchedule();
        state := STARTING;
      } else if wifiReady && state.STARTING? {
        state := ARMED;
      }
    }

    method SetWifiReady(ready: bool)
      requires Valid()
      modifies this
      ensures Valid() && Abs() == M.SetWifiReady(old(Abs()), ready)
    {
      wifiReady := ready;
      if !running {
        return;
      }
      if !ready {
        ClearSchedule();
        state := STARTING;
      } else if cameraReady && state.STARTING? {
        state := ARMED;
      }
    }

    predicate AcceptingRequests()
      reads this
    {
      running && cameraReady && wifiReady && !state.STOPPED?
    }

    method RequestCapture(requestId: string, delayMs: int, autofocus: bool) returns (ok: bool, error: Notice)
      requires Valid()
      modifies this, env
      ensures Valid()
      ensures (Abs(), ok, error) ==
              M.Request(config, env.world, old(Abs()), requestId, delayMs, autofocus)
    {
      error := Silent;
      if !AcceptingRequests() || !state.ARMED? {
        return false, RemoteBusy;
      }
      if delayMs < 0 || delayMs > config.maxDelayMs {
        return false, DelayOutOfRange;
      }
      ClearSchedule();
      var now := env.NowMs();
      lastRequestId := Web(requestId);
      lastError := Silent;
      Plan(now, delayMs, autofocus);
      Tick();
      ok := !state.ERROR?;
    }

    method CancelCountdown() returns (ok: bool, error: Notice)
      requires Valid()
      modifies this, env
      ensures Valid() && (Abs(), ok, error) == M.CancelCountdown(env.world, old(Abs()))
    {
      if schedule.captureSent || (!state.COUNTDOWN? && !state.FOCUSING?) {
        return false, NotCancellable;
      }
      if schedule.focusSent {
        var _, _ := Send(CancelAutofocus);
      }
      ClearSchedule();
      state := if cameraReady && wifiReady then ARMED else STARTING;
      return true, Silent;
    }

    method SetFocus(pressed: bool) returns (ok: bool, error: Notice)
      requires Valid()
      modifies this, env
      ensures Valid() && (Abs(), ok, error) == M.SetFocus(env.world, old(Abs()), pressed)
    {
      if pressed {
        if !state.ARMED? {
          return false, RemoteBusy;
        }
        schedule := schedule.(standaloneFocus := true, focusSent := true);
        var sent, id := Send(StartAutofocus);
        if !sent {
          return false, Silent;
        }
        schedule := schedule.(focusCommandId := id);
        state := FOCUSING;
        return true, Silent;
      }
      if !schedule.standaloneFocus || !state.FOCUSING? {
        return false, FocusInactive;
      }
      var _, _ := Send(CancelAutofocus);
      ClearSchedule();
      state := if cameraReady && wifiReady then ARMED else STARTING;
      return true, Silent;
    }

    method PhysicalShutter(pressed: bool) returns (ok: bool, error: Notice)
      requires Valid()
      modifies this, env
      ensures Valid() && (Abs(), ok, error) == M.Shutter(config, env.world, old(Abs()), pressed)
    {
      error := Silent;
      if !pressed {
        ReleaseKey();
        return true, Silent;
      }
      if !running || !cameraReady {
        return false, CameraNotReady;
      }
      if !state.COUNTDOWN? && !state.FOCUSING? && !state.ARMED? {
        return false, CameraBusy;
      }
      PressKey();
      ok := !state.ERROR?;
    }

    method PressKey()
      requires Valid() && (state.ARMED? || state.COUNTDOWN? || state.FOCUSING?)
      modifies this, env
      ensures Valid() && Abs() == M.Shutter(config, env.world, old(Abs()), true).0
    {
      hide M.Tick, M.BeginCapture;
      ghost var was := Abs();
      if state.COUNTDOWN? || (state.FOCUSING? && !schedule.standaloneFocus) {
        DropPending();
      }
      lastRequestId := Physical;
      lastError := Silent;
      assert Abs().(phase := was.phase) == M.Pressed(env.world, was);
      M.CaptureForgetsPhase(config, env.world, Abs(), was.phase, was.phase.HalfPress?);
      BeginCapture(true);
    }

    method ReleaseKey()
      requires Valid()
      modifies this, env
      ensures Valid() && Abs() == M.Shutter(config, env.world, old(Abs()), false).0
    {
      hide M.Tick;
      if state.CAPTURING? && schedule.physicalCapture && schedule.releaseDeadlineMs > 0 {
        var now := env.NowMs();
        schedule := schedule.(releaseDeadlineMs := now);
        Tick();
      }
    }

    /** Make way for the shutter key. The state keeps its old name (or is ERROR after a refusal)
        until the capture that follows. */
    method DropPending()
      requires Valid() && running && (state.COUNTDOWN? || state.FOCUSING?)
      modifies this, env
      ensures Consistent() && schedule == CLEAR
      ensures unchanged(`running, `cameraReady, `wifiReady, `lastRequestId)
      ensures var freed := M.Unfocus(env.world, old(Abs()));
              env.log == freed.log && env.instant == freed.instant
    {
      if schedule.focusSent {
        var _, _ := Send(CancelAutofocus);
      }
      ClearSchedule();
    }

    method TickFocus(now: int)
      requires Consistent() && running
      requires state.FOCUSING? && !schedule.focusSent ==> schedule.autofocusRequested && schedule.focusDeadlineMs <= now
      modifies this, env
      ensures Valid() && running && Abs() == M.TickFocus(env.world, old(Abs()), now)
    {
      if (state.COUNTDOWN? || state.FOCUSING?) && schedule.autofocusRequested
         && !schedule.focusSent && now >= schedule.focusDeadlineMs {
        schedule := schedule.(focusSent := true);
        var ok, id := Send(StartAutofocus);
        if !ok {
          return;
        }
        schedule := schedule.(focusCommandId := id);
        state := FOCUSING;
      }
    }

    method TickCapture(now: int)
      requires Valid() && running && 0 <= now
      modifies this, env
      ensures Valid() && running && Abs() == M.TickCapture(config, env.world, old(Abs()), now)
    {
      if (state.COUNTDOWN? || state.FOCUSING?) && !schedule.captureSent && now >= schedule.captureDeadlineMs {
        BeginCapture(false);
      }
    }

    method TickRelease(now: int)
      requires Valid() && running
      modifies this, env
      ensures Valid() && running && Abs() == M.TickRelease(env.world, old(Abs()), now)
    {
      if state.CAPTURING? && schedule.captureSent
         && schedule.releaseDeadlineMs > 0 && now >= schedule.releaseDeadlineMs {
        schedule := schedule.(releaseDeadlineMs := 0);
        var ok, id := Send(ReleaseShutter);
        if !ok {
          return;
        }
        schedule := schedule.(releaseCommandId := id);
        state := COOLDOWN;
      }
    }

    method TickCool(now: int)
      requires Valid() && running
      modifies this
      ensures Valid() && running && Abs() == M.TickCool(old(Abs()), now)
    {
      if state.COOLDOWN? && now >= schedule.cooldownDeadlineMs {
        ClearSchedule();
        state := if cameraReady && wifiReady then ARMED else STARTING;
      }
    }

    method Tick()
      requires Consistent()
      requires state.FOCUSING? && !schedule.focusSent ==>
                 schedule.autofocusRequested && schedule.focusDeadlineMs <= env.world.At(env.instant)
      modifies this, env
      ensures Valid() && Abs() == M.Tick(config, env.world, old(Abs()))
    {
      if !running {
        return;
      }
      ghost var m := Abs();
      var now := env.NowMs();
      TickFocus(now);
      ghost var f := Abs();
      TickCapture(now);
      ghost var c := Abs();
      TickRelease(now);
      ghost var r := Abs();
      TickCool(now);
      M.StepsOfTick(config, env.world, m, f, c, r);
    }

    method ReportCommandResult(commandId: int, resultCode: int, message: string)
      requires Valid()
      modifies this
      ensures Valid() && Abs() == M.Report(old(Abs()), commandId, resultCode, message)
    {
      if commandId == schedule.captureCommandId && resultCode != 0 {
        Fail(if message == "" then CaptureFailed else Reported(message));
        return;
      }
      if commandId == schedule.focusCommandId && resultCode != 0 && !schedule.standaloneFocus {
        if !schedule.captureSent {
          lastError := if message == "" then AutofocusFailed else Reported(message);
          ClearSchedule();
          state := ARMED;
        }
      }
      if commandId == schedule.releaseCommandId && resultCode != 0 {
        lastError := if message == "" then ReleaseFailed else Reported(message);
      }
    }

    method CountdownRemainingMs() returns (remaining: int)
      requires Valid()
      modifies env`instant
      ensures Valid() && remaining == M.CountdownRemaining(env.world, old(Abs()))
      ensures Abs() == M.Looked(old(Abs()))
    {
      if (!state.COUNTDOWN? && !state.FOCUSING?) || schedule.captureDeadlineMs <= 0 {
        return 0;
      }
      var now := env.NowMs();
      remaining := schedule.captureDeadlineMs - now;
      remaining := if remaining > 0 then remaining else 0;
    }
  }
}
