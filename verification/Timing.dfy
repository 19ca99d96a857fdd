/** What ticks alone do: a tick repeated at the same instant changes nothing, and after an accepted web
    request any sequence of ticks emits the request's own commands and brings the machine back in time. */
module Timing {
  import opened Types
  import opened Machine
  import Live
  import Runs

  /** Nothing is due at `now`. */
  predicate Still(p: Phase, now: int) {
    match p
    case HalfPress(_) => false
    case Pending(focus, captureAt) => now < captureAt && (focus.FocusAt? ==> now < focus.deadline)
    case Capturing(_, _, _, releaseAt, _) => releaseAt <= 0 || now < releaseAt
    case Cooldown(_, _, _, coolAt) => now < coolAt
    case _ => true
  }

  lemma BeginIsStill(cfg: Config, w: World, m: Machine, physical: bool, focused: bool, now: int)
    requires now <= Now(w, m)
    ensures Still(BeginCapture(cfg, w, m, physical, focused).phase, now)
  {
    w.Monotone(m.instant, m.instant + 1);
  }

  lemma TickIsStill(cfg: Config, w: World, m: Machine)
    ensures Still(Tick(cfg, w, m).phase, Now(w, m))
  {
    var now, n := Now(w, m), m.(instant := m.instant + 1);
    w.Monotone(m.instant, n.instant);
    if m.phase.Pending? {
      var f := TickFocus(w, n, now);
      w.Monotone(m.instant, f.instant);
      BeginIsStill(cfg, w, f, false, Focused(f.phase), now);
      assert Tick(cfg, w, m) == if f.phase.Pending? then CaptureIfDue(cfg, w, f, now) else f;
    } else if m.phase.HalfPress? {
      BeginIsStill(cfg, w, n, false, true, now);
    }
  }

  /** A second tick that reads the same time as the first changes nothing but the number of reads. */
  lemma TickTwice(cfg: Config, w: World, m: Machine)
    requires Now(w, Tick(cfg, w, m)) == Now(w, m)
    ensures var t := Tick(cfg, w, m);
            Tick(cfg, w, t) == if Running(t.phase) then t.(instant := t.instant + 1) else t
  {
    TickIsStill(cfg, w, m);
    StillTick(cfg, w, Tick(cfg, w, m));
  }

  lemma StillTick(cfg: Config, w: World, t: Machine)
    requires Still(t.phase, Now(w, t))
    ensures Tick(cfg, w, t) == if Running(t.phase) then t.(instant := t.instant + 1) else t
  {
  }

  function Ticks(cfg: Config, w: World, m: Machine, n: nat): Machine {
    if n == 0 then m else Tick(cfg, w, Ticks(cfg, w, m, n - 1))
  }

  /** The commands an accepted web request stands for. */
  function Plan(autofocus: bool): seq<Command> {
    if autofocus then [StartAutofocus, Capture, ReleaseShutter] else [Capture, ReleaseShutter]
  }

  /** How many of them have been sent. */
  function Progress(p: Phase, autofocus: bool): nat {
    var n := |Plan(autofocus)|;
    match p
    case Pending(focus, _) => if focus.FocusSent? then 1 else 0
    case Capturing(_, _, _, _, _) => n - 1
    case _ => n
  }

  /** The machine is carrying out the request whose orders start at `base` in the log. */
  predicate OnPlan(m: Machine, base: nat, autofocus: bool, due: int) {
    && m.cameraReady && m.wifiReady
    && (m.phase.Pending? || m.phase.Capturing? || m.phase.Cooldown? || m.phase.Armed?)
    && (m.phase.Pending? ==> m.phase.captureAt == due && (m.phase.focus.NoFocus? <==> !autofocus))
    && (m.phase.Pending? && m.phase.focus.FocusAt? ==> m.phase.focus.deadline <= due)
    && |m.log| == base + Progress(m.phase, autofocus)
    && forall i :: base <= i < |m.log| ==> m.log[i].kind == Plan(autofocus)[i - base] && m.log[i].accepted
  }

  ghost predicate AcceptsAll(w: World) {
    forall id :: w.Accepts(id)
  }

  lemma TickOnPlan(cfg: Config, w: World, m: Machine, base: nat, autofocus: bool, due: int)
    requires AcceptsAll(w) && OnPlan(m, base, autofocus, due)
    ensures OnPlan(Tick(cfg, w, m), base, autofocus, due)
  {
    if m.phase.Pending? {
      var f := TickFocus(w, m.(instant := m.instant + 1), Now(w, m));
      assert OnPlan(f, base, autofocus, due);
      assert Tick(cfg, w, m) == CaptureIfDue(cfg, w, f, Now(w, m));
    } else if m.phase.Capturing? {
      assert Plan(autofocus)[Progress(m.phase, autofocus)] == ReleaseShutter;
    }
  }

  lemma {:induction false} TicksOnPlan(cfg: Config, w: World, m: Machine, n: nat, base: nat, autofocus: bool, due: int)
    requires AcceptsAll(w) && OnPlan(m, base, autofocus, due)
    ensures OnPlan(Ticks(cfg, w, m, n), base, autofocus, due)
  {
    if 0 < n {
      TicksOnPlan(cfg, w, m, n - 1, base, autofocus, due);
      TickOnPlan(cfg, w, Ticks(cfg, w, m, n - 1), base, autofocus, due);
    }
  }

  /** However the ticks fall, an accepted request only ever emits its own plan, in order, and is back in
      ARMED only when all of it is out. */
  lemma ScheduleIndependence(cfg: Config, w: World, m: Machine, id: string, delay: int, autofocus: bool, n: nat)
    requires AcceptsAll(w) && Grantable(cfg, m, delay) && m.cameraReady && m.wifiReady
    ensures var r := Request(cfg, w, m, id, delay, autofocus);
            r.1 && OnPlan(Ticks(cfg, w, r.0, n), |m.log|, autofocus, Due(cfg, Now(w, m), delay, autofocus))
  {
    var s := Scheduled(cfg, w, m, id, delay, autofocus);
    var due := Due(cfg, Now(w, m), delay, autofocus);
    TickOnPlan(cfg, w, s, |m.log|, autofocus, due);
    TicksOnPlan(cfg, w, Tick(cfg, w, s), n, |m.log|, autofocus, due);
  }

  // ---------------------------------------------------------------- bounded response

  /** The time the (k+1)-th tick reads. */
  function TickTime(cfg: Config, w: World, m: Machine, k: nat): int {
    Now(w, Ticks(cfg, w, m, k))
  }

  function Longer(cfg: Config): int {
    if cfg.cooldownMs < cfg.webShutterHoldMs then cfg.webShutterHoldMs else cfg.cooldownMs
  }

  /** `last` is the time of the latest tick; every deadline in force is known. */
  predicate InTime(cfg: Config, m: Machine, due: int, gap: int, last: int) {
    match m.phase
    case Pending(_, captureAt) => captureAt == due && last <= due
    case Capturing(_, _, _, releaseAt, coolAt) =>
      0 < releaseAt <= due + 2 * gap + Longer(cfg) && coolAt <= due + 2 * gap + Longer(cfg)
    case Cooldown(_, _, _, coolAt) => coolAt <= due + 2 * gap + Longer(cfg)
    case _ => m.phase.Armed?
  }

  lemma TickInTime(cfg: Config, w: World, m: Machine, due: int, gap: nat, last: int)
    requires AcceptsAll(w) && m.cameraReady && m.wifiReady
    requires InTime(cfg, m, due, gap, last)
    requires Now(w, m) <= last + gap && Now(w, Tick(cfg, w, m)) <= Now(w, m) + gap
    ensures InTime(cfg, Tick(cfg, w, m), due, gap, Now(w, m))
  {
    if m.phase.Pending? {
      PendingInTime(cfg, w, m, due, gap, last);
    }
  }

  lemma PendingInTime(cfg: Config, w: World, m: Machine, due: int, gap: nat, last: int)
    requires AcceptsAll(w) && m.phase.Pending? && InTime(cfg, m, due, gap, last)
    requires Now(w, m) <= last + gap && Now(w, Tick(cfg, w, m)) <= Now(w, m) + gap
    ensures InTime(cfg, Tick(cfg, w, m), due, gap, Now(w, m))
  {
    var f := TickFocus(w, m.(instant := m.instant + 1), Now(w, m));
    assert f.phase.Pending? && f.phase.captureAt == due;
    assert Tick(cfg, w, m) == CaptureIfDue(cfg, w, f, Now(w, m));
    w.Monotone(f.instant + 1, f.instant + 2);
    hide Tick, TickFocus;
  }

  lemma {:induction false} TicksInTime(cfg: Config, w: World, m: Machine, n: nat, due: int, gap: nat, last: int)
    requires AcceptsAll(w) && m.cameraReady && m.wifiReady
    requires InTime(cfg, m, due, gap, last)
    requires TickTime(cfg, w, m, 0) <= last + gap
    requires forall k: nat :: k < n ==> TickTime(cfg, w, m, k + 1) <= TickTime(cfg, w, m, k) + gap
    ensures var t := Ticks(cfg, w, m, n);
            && t.cameraReady && t.wifiReady
            && InTime(cfg, t, due, gap, if n == 0 then last else TickTime(cfg, w, m, n - 1))
  {
    if 0 < n {
      TicksInTime(cfg, w, m, n - 1, due, gap, last);
      var k := n - 1;
      assert TickTime(cfg, w, m, k + 1) <= TickTime(cfg, w, m, k) + gap;
      if 1 < n {
        assert TickTime(cfg, w, m, (n - 2) + 1) <= TickTime(cfg, w, m, n - 2) + gap;
      }
      TickInTime(cfg, w, Ticks(cfg, w, m, n - 1), due, gap,
                 if n == 1 then last else TickTime(cfg, w, m, n - 2));
    }
  }

  /** Once a request is accepted, with ticks at most `gap` apart and nothing else happening, the first
      tick at or after due + 2 gap + max(cooldown, hold) leaves the machine ARMED. */
  lemma BoundedResponse(cfg: Config, w: World, m: Machine, id: string, delay: int, autofocus: bool, n: nat, gap: nat)
    requires AcceptsAll(w) && Grantable(cfg, m, delay) && m.cameraReady && m.wifiReady
    requires var t := Request(cfg, w, m, id, delay, autofocus).0;
             && TickTime(cfg, w, t, 0) <= Now(w, m) + gap
             && (forall k: nat :: k < n ==> TickTime(cfg, w, t, k + 1) <= TickTime(cfg, w, t, k) + gap)
             && Due(cfg, Now(w, m), delay, autofocus) + 2 * gap + Longer(cfg) <= TickTime(cfg, w, t, n)
    ensures Ticks(cfg, w, Request(cfg, w, m, id, delay, autofocus).0, n + 1).phase == Armed
  {
    var due := Due(cfg, Now(w, m), delay, autofocus);
    var s := Scheduled(cfg, w, m, id, delay, autofocus);
    var t := Tick(cfg, w, s);
    w.Monotone(m.instant, s.instant);
    InstantGrows(cfg, w, s);
    w.Monotone(s.instant, t.instant);
    TickInTime(cfg, w, s, due, gap, Now(w, m));
    TicksInTime(cfg, w, t, n, due, gap, Now(w, s));
    if 0 < n {
      var k := n - 1;
      assert TickTime(cfg, w, t, k + 1) <= TickTime(cfg, w, t, k) + gap;
    }
    LastTick(cfg, w, Ticks(cfg, w, t, n), due, gap, if n == 0 then Now(w, s) else TickTime(cfg, w, t, n - 1));
  }

  lemma LastTick(cfg: Config, w: World, m: Machine, due: int, gap: nat, last: int)
    requires AcceptsAll(w) && m.cameraReady && m.wifiReady
    requires InTime(cfg, m, due, gap, last) && Now(w, m) <= last + gap
    requires due + 2 * gap + Longer(cfg) <= Now(w, m)
    ensures Tick(cfg, w, m).phase == Armed
  {
  }

  lemma InstantGrows(cfg: Config, w: World, m: Machine)
    ensures m.instant <= Tick(cfg, w, m).instant
  {
  }

  // ---------------------------------------------------------------- the failsafe of a held shutter

  /** A capture is held until its release is due, and no tick begins another one. */
  predicate HeldOrOver(m: Machine, t: Machine) {
    if t.phase.Capturing? then t.phase == m.phase && t.log == m.log
    else (t.phase.Cooldown? || t.phase == RestPhase(t)) && m.log < t.log && t.log[|m.log|].kind == ReleaseShutter
  }

  lemma TickHolds(cfg: Config, w: World, m: Machine, t: Machine)
    requires AcceptsAll(w) && m.phase.Capturing? && 0 < m.phase.releaseAt && HeldOrOver(m, t)
    ensures HeldOrOver(m, Tick(cfg, w, t))
    ensures m.phase.releaseAt <= Now(w, t) ==> !Tick(cfg, w, t).phase.Capturing?
    ensures t.phase.Capturing? && Now(w, t) < m.phase.releaseAt ==> Tick(cfg, w, t).phase.Capturing?
  {
  }

  lemma {:induction false} TicksHold(cfg: Config, w: World, m: Machine, n: nat)
    requires AcceptsAll(w) && m.phase.Capturing? && 0 < m.phase.releaseAt
    ensures HeldOrOver(m, Ticks(cfg, w, m, n))
  {
    if 0 < n {
      TicksHold(cfg, w, m, n - 1);
      TickHolds(cfg, w, m, Ticks(cfg, w, m, n - 1));
      hide Tick;
    }
  }

  /** The failsafe needs no key-up: of any ticks, the first that reads `releaseAt` or later sends the
      RELEASE, and none before it does. */
  lemma FailsafeReleases(cfg: Config, w: World, m: Machine, n: nat)
    requires AcceptsAll(w) && m.phase.Capturing? && 0 < m.phase.releaseAt
    ensures HeldOrOver(m, Ticks(cfg, w, m, n + 1))
    ensures Ticks(cfg, w, m, n + 1).phase.Capturing? <==> TickTime(cfg, w, m, n) < m.phase.releaseAt
  {
    TicksHold(cfg, w, m, n);
    TickHolds(cfg, w, m, Ticks(cfg, w, m, n));
    if TickTime(cfg, w, m, n) < m.phase.releaseAt {
      EarlyTicksHold(cfg, w, m, n);
    }
    hide Tick, HeldOrOver;
  }

  /** A key press holds the shutter for the failsafe time, counted from the clock read after the CAPTURE. */
  lemma KeyDownSetsFailsafe(cfg: Config, w: World, m: Machine)
    requires Shutter(cfg, w, m, true).1
    ensures var t := Shutter(cfg, w, m, true).0;
            && t.phase.Capturing? && t.phase.physical && 0 < t.instant
            && 0 < t.phase.releaseAt == w.At(t.instant - 1) + cfg.physicalShutterFailsafeMs
  {
  }

  /** So after a granted key press and ticks alone, the RELEASE is sent by the first tick that reads that
      time or later, and by none before. */
  lemma KeyPressIsReleased(cfg: Config, w: World, m: Machine, n: nat)
    requires AcceptsAll(w) && Shutter(cfg, w, m, true).1
    ensures var t := Shutter(cfg, w, m, true).0;
            && 0 < t.instant && t.phase.Capturing? && HeldOrOver(t, Ticks(cfg, w, t, n + 1))
            && (Ticks(cfg, w, t, n + 1).phase.Capturing? <==>
                  TickTime(cfg, w, t, n) < w.At(t.instant - 1) + cfg.physicalShutterFailsafeMs)
  {
    hide Tick, HeldOrOver, Shutter;
    KeyDownSetsFailsafe(cfg, w, m);
    FailsafeReleases(cfg, w, Shutter(cfg, w, m, true).0, n);
  }

  lemma {:induction false} EarlyTicksHold(cfg: Config, w: World, m: Machine, n: nat)
    requires AcceptsAll(w) && m.phase.Capturing? && TickTime(cfg, w, m, n) < m.phase.releaseAt
    ensures Ticks(cfg, w, m, n) == m.(instant := Ticks(cfg, w, m, n).instant)
  {
    if 0 < n {
      var before := Ticks(cfg, w, m, n - 1);
      InstantGrows(cfg, w, before);
      w.Monotone(before.instant, Ticks(cfg, w, m, n).instant);
      EarlyTicksHold(cfg, w, m, n - 1);
    }
  }

  // ---------------------------------------------------------------- two surprises of the code

  /** Letting the shutter key go releases the shutter, except when the clock reads zero, because the
      deadline then looks like no deadline, and whenever that has happened before. */
  lemma KeyUpReleases(cfg: Config, w: World, m: Machine)
    requires AcceptsAll(w) && m.phase.Capturing? && m.phase.physical
    ensures !Shutter(cfg, w, m, false).0.phase.Capturing? <==> 0 < m.phase.releaseAt && Now(w, m) != 0
    ensures m.phase.releaseAt <= 0 ==> Shutter(cfg, w, m, false).0 == m
  {
    w.Monotone(m.instant, m.instant + 1);
  }

  /** And then no tick ever releases it. */
  lemma {:induction false} KeyUpAtZeroSticks(cfg: Config, w: World, m: Machine, n: nat)
    requires m.phase.Capturing? && m.phase.physical && 0 < m.phase.releaseAt && Now(w, m) == 0
    ensures var t := Ticks(cfg, w, Shutter(cfg, w, m, false).0, n);
            t.phase == m.phase.(releaseAt := 0) && t.log == m.log
  {
    if 0 < n {
      KeyUpAtZeroSticks(cfg, w, m, n - 1);
    }
  }

  /** A clock that never leaves 0, and a sink that accepts everything. */
  ghost const STOPPED_CLOCK := World(0, [], iset id: int | true)

  const MADE_READY := [StartCall, CameraReadyCall(true), WifiReadyCall(true)]

  lemma {:induction false} ClockStays(i: nat)
    ensures STOPPED_CLOCK.At(i) == 0
  {
    if 0 < i {
      ClockStays(i - 1);
    }
  }

  lemma MadeReady(cfg: Config, w: World)
    ensures Run(cfg, w, MADE_READY) == INITIAL.(phase := Armed, cameraReady := true, wifiReady := true)
  {
    var a, b := [StartCall], [StartCall, CameraReadyCall(true)];
    assert MADE_READY[..2] == b && b[..1] == a && a[..0] == [];
    assert Run(cfg, w, a) == Start(INITIAL);
  }

  /** A key press at clock 0 leads to the excluded state. */
  lemma ClockZeroExample(cfg: Config)
    ensures var m := Run(cfg, STOPPED_CLOCK, MADE_READY + [ShutterCall(true)]);
            && m.phase.Capturing? && m.phase.physical && 0 < m.phase.releaseAt && Now(STOPPED_CLOCK, m) == 0
            && Shutter(cfg, STOPPED_CLOCK, m, false).0.phase.Capturing?
  {
    var w, events := STOPPED_CLOCK, MADE_READY + [ShutterCall(true)];
    assert events[..3] == MADE_READY;
    MadeReady(cfg, w);
    var m := Run(cfg, w, events);
    ClockStays(0);
    ClockStays(1);
    assert m == Shutter(cfg, w, Run(cfg, w, MADE_READY), true).0;
    ClockStays(m.instant);
    hide Run;
    KeyUpReleases(cfg, w, m);
  }

  /** A half-press and one tick take a picture. */
  lemma HalfPressExample(cfg: Config, w: World)
    requires AcceptsAll(w)
    ensures var m := Run(cfg, w, MADE_READY + [FocusCall(true), TickCall]);
            && m.phase.Capturing? && |m.log| == 2
            && m.log[0].kind == StartAutofocus && m.log[1].kind == Capture && m.log[1].accepted
  {
    var pressed := MADE_READY + [FocusCall(true)];
    var events := MADE_READY + [FocusCall(true), TickCall];
    assert pressed[..3] == MADE_READY && events[..4] == pressed;
    MadeReady(cfg, w);
    assert Run(cfg, w, pressed) == SetFocus(w, Run(cfg, w, MADE_READY), true).0;
    assert Run(cfg, w, events) == Tick(cfg, w, Run(cfg, w, pressed));
    hide Run;
  }

  /** The events that leave a half-press as it is. */
  predicate LeavesHalfPress(e: Event) {
    match e
    case StartCall => true
    case CameraReadyCall(ready) => ready
    case WifiReadyCall(ready) => ready
    case RequestCall(_, _, _) => true
    case FocusCall(pressed) => pressed
    case ShutterCall(pressed) => !pressed
    case ReportCall(id, code, _) => id != 0 || code == 0
    case ClockRead => true
    case _ => false
  }

  predicate OffersCapture(m: Machine, t: Machine) {
    |m.log| < |t.log| && t.log[|m.log|].kind == Capture
  }

  lemma HalfPressStep(cfg: Config, w: World, m: Machine, e: Event)
    requires m.phase.HalfPress? && Runs.Settled(m)
    ensures var t := Step(cfg, w, m, e).0;
            && (LeavesHalfPress(e) <==> t.phase.HalfPress?)
            && (LeavesHalfPress(e) ==> t.phase == m.phase && t.log == m.log && Runs.Settled(t))
            && (e.TickCall? || e == ShutterCall(true) <==> OffersCapture(m, t))
  {
  }

  /** A half-press ends in an offered capture exactly when a tick or a key press comes before it is let go,
      cancelled, stopped, reset or failed: whatever else happens in between leaves it, and the log, alone. */
  lemma {:induction false} HalfPressFate(cfg: Config, w: World, events: seq<Event>, quiet: seq<Event>, e: Event)
    requires Run(cfg, w, events).phase.HalfPress? && forall q :: q in quiet ==> LeavesHalfPress(q)
    ensures var n := Run(cfg, w, events + quiet);
            && n.phase == Run(cfg, w, events).phase && n.log == Run(cfg, w, events).log
            && (e.TickCall? || e == ShutterCall(true) <==> OffersCapture(n, Step(cfg, w, n, e).0))
            && (LeavesHalfPress(e) <==> Step(cfg, w, n, e).0.phase.HalfPress?)
    decreases |quiet|
  {
    var all := events + quiet;
    hide Step, LeavesHalfPress;
    if quiet != [] {
      var before, q := quiet[..|quiet| - 1], quiet[|quiet| - 1];
      assert all[..|all| - 1] == events + before && all[|all| - 1] == q;
      HalfPressFate(cfg, w, events, before, q);
      Live.RunSound(cfg, w, events + before);
      HalfPressStep(cfg, w, Run(cfg, w, events + before), q);
    } else {
      assert all == events;
    }
    Live.RunSound(cfg, w, all);
    HalfPressStep(cfg, w, Run(cfg, w, all), e);
  }
}
