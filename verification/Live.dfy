/** Command ids, readiness and the countdown in every reachable state. */
module Live {
  import opened Types
  import opened Machine
  import opened Runs
  import opened Reach

  predicate Is(m: Machine, id: int, kind: Command) {
    1 <= id <= |m.log| && m.log[id - 1].kind == kind && m.log[id - 1].accepted
  }

  /** The ids a result can still matter for are the ids of the very latest commands. */
  predicate Latest(m: Machine) {
    match m.phase
    case HalfPress(focusId) => focusId == |m.log| && Is(m, focusId, StartAutofocus)
    case Pending(FocusSent(focusId), _) => focusId == |m.log| && Is(m, focusId, StartAutofocus)
    case Capturing(captureId, _, _, _, _) => captureId == |m.log| && Is(m, captureId, Capture)
    case Cooldown(captureId, releaseId, _, _) =>
      captureId == |m.log| - 1 && releaseId == |m.log| && Is(m, captureId, Capture) && Is(m, releaseId, ReleaseShutter)
    case _ => true
  }

  function Longest(cfg: Config): nat {
    if cfg.maxDelayMs < cfg.immediateAutofocusLeadMs then cfg.immediateAutofocusLeadMs else cfg.maxDelayMs
  }

  function LongestHold(cfg: Config): nat {
    if cfg.webShutterHoldMs < cfg.physicalShutterFailsafeMs then cfg.physicalShutterFailsafeMs
    else cfg.webShutterHoldMs
  }

  /** No deadline is further away than its longest wait; only a physical release may have none. */
  predicate DeadlinesInRange(cfg: Config, p: Phase, now: int) {
    match p
    case Pending(focus, captureAt) =>
      && 0 <= captureAt <= now + Longest(cfg)
      && (focus.FocusAt? ==> 0 <= focus.deadline <= captureAt)
    case Capturing(_, physical, _, releaseAt, coolAt) =>
      && 0 <= releaseAt <= now + LongestHold(cfg) && (!physical ==> 0 < releaseAt)
      && 0 < coolAt <= now + cfg.cooldownMs
    case Cooldown(_, _, _, coolAt) => 0 < coolAt <= now + cfg.cooldownMs
    case _ => true
  }

  predicate Sound(cfg: Config, w: World, m: Machine) {
    && Settled(m)
    && Latest(m)
    && DeadlinesInRange(cfg, m.phase, Now(w, m))
  }

  lemma PendingTickSound(cfg: Config, w: World, m: Machine)
    requires Sound(cfg, w, m) && m.phase.Pending?
    ensures Sound(cfg, w, Tick(cfg, w, m))
  {
    var now := Now(w, m);
    var f := TickFocus(w, m.(instant := m.instant + 1), now);
    FocusSound(cfg, w, m);
    assert Tick(cfg, w, m) == if f.phase.Pending? then CaptureIfDue(cfg, w, f, now) else f;
    hide Tick, TickFocus;
    if f.phase.Pending? {
      w.Monotone(f.instant, f.instant + 1);
      w.Monotone(f.instant + 1, f.instant + 2);
    }
  }

  lemma FocusSound(cfg: Config, w: World, m: Machine)
    requires Sound(cfg, w, m) && m.phase.Pending?
    ensures Sound(cfg, w, TickFocus(w, m.(instant := m.instant + 1), Now(w, m)))
  {
    w.Monotone(m.instant, m.instant + 1);
    w.Monotone(m.instant, m.instant + 2);
  }

  lemma TickSound(cfg: Config, w: World, m: Machine)
    requires Sound(cfg, w, m)
    ensures Sound(cfg, w, Tick(cfg, w, m))
  {
    if m.phase.Pending? {
      PendingTickSound(cfg, w, m);
    } else if m.phase.Capturing? {
      CapturingTickSound(cfg, w, m);
    }
  }

  lemma CapturingTickSound(cfg: Config, w: World, m: Machine)
    requires Sound(cfg, w, m) && m.phase.Capturing?
    ensures Sound(cfg, w, Tick(cfg, w, m))
  {
    var n := m.(instant := m.instant + 1);
    w.Monotone(m.instant, n.instant);
    w.Monotone(n.instant, n.instant + 1);
    var r := TickRelease(w, n, Now(w, m));
    assert Sound(cfg, w, r);
    assert Tick(cfg, w, m) == TickCool(r, Now(w, m));
  }

  lemma ShutterSound(cfg: Config, w: World, m: Machine, pressed: bool)
    requires Sound(cfg, w, m)
    ensures Sound(cfg, w, Shutter(cfg, w, m, pressed).0)
  {
    w.Monotone(0, m.instant);
    w.Monotone(m.instant, m.instant + 1);
    hide Tick;
    if !pressed && m.phase.Capturing? && m.phase.physical {
      TickSound(cfg, w, LetGo(w, m));
    }
  }

  lemma RequestSound(cfg: Config, w: World, m: Machine, id: string, delay: int, autofocus: bool)
    requires Sound(cfg, w, m)
    ensures Sound(cfg, w, Request(cfg, w, m, id, delay, autofocus).0)
  {
    w.Monotone(0, m.instant);
    w.Monotone(m.instant, m.instant + 1);
    hide Tick;
    if Grantable(cfg, m, delay) {
      TickSound(cfg, w, Scheduled(cfg, w, m, id, delay, autofocus));
    }
  }

  lemma StepSound(cfg: Config, w: World, m: Machine, e: Event)
    requires Sound(cfg, w, m)
    ensures Sound(cfg, w, Step(cfg, w, m, e).0)
  {
    w.Monotone(m.instant, m.instant + 1);
    hide Tick, Shutter, Request;
    match e
    case RequestCall(id, delay, autofocus) => RequestSound(cfg, w, m, id, delay, autofocus);
    case ShutterCall(pressed) => ShutterSound(cfg, w, m, pressed);
    case TickCall => TickSound(cfg, w, m);
    case _ =>
  }

  /** The k-th command carries id k + 1, so ids only ever grow. */
  predicate Numbered(log: seq<Order>) {
    forall k: nat :: k < |log| ==> log[k].id == k + 1
  }

  lemma TookNumbered(m: Machine, t: Machine, n: nat)
    requires Took(m, t, n) && Numbered(m.log)
    ensures Numbered(t.log)
  {
    forall k: nat | k < |t.log| ensures t.log[k].id == k + 1 {
      if k < |m.log| {
        assert t.log[k] == m.log[k];
      } else {
        assert NumberedAt(t.log, k);
      }
    }
  }

  lemma {:induction false} RunNumbered(cfg: Config, w: World, events: seq<Event>)
    ensures Numbered(Run(cfg, w, events).log)
  {
    if events != [] {
      var before, e := events[..|events| - 1], events[|events| - 1];
      RunNumbered(cfg, w, before);
      var n := StepConserves(cfg, w, Run(cfg, w, before), e);
      TookNumbered(Run(cfg, w, before), Step(cfg, w, Run(cfg, w, before), e).0, n);
    }
  }

  lemma {:induction false} RunSound(cfg: Config, w: World, events: seq<Event>)
    ensures Sound(cfg, w, Run(cfg, w, events))
  {
    if events != [] {
      RunSound(cfg, w, events[..|events| - 1]);
      StepSound(cfg, w, Run(cfg, w, events[..|events| - 1]), events[|events| - 1]);
    }
  }

  /** A reported failure that matters does exactly one of three things. */
  predicate Matters(m: Machine, id: int, t: Machine) {
    && 1 <= id && |m.log| - 1 <= id <= |m.log|
    && m.log[id - 1].id == id && m.log[id - 1].accepted
    && match m.log[id - 1].kind
       case StartAutofocus =>
         id == |m.log| && m.phase.Pending? && t.phase == Armed && m.cameraReady && m.wifiReady
       case Capture => (m.phase.Capturing? || m.phase.Cooldown?) && t.phase == Error(true)
       case ReleaseShutter => id == |m.log| && m.phase.Cooldown? && t == m.(lastError := t.lastError)
       case CancelAutofocus => false
  }

  /** A reported result changes anything only if it is the failure of the latest command, or of the
      capture just before the latest release. */
  lemma StaleResultsAreInert(cfg: Config, w: World, events: seq<Event>, id: int, code: int, message: string)
    requires 1 <= id
    ensures var m := Run(cfg, w, events);
            var t := Report(m, id, code, message);
            t == m || (code != 0 && Matters(m, id, t))
  {
    RunSound(cfg, w, events);
    RunNumbered(cfg, w, events);
    ReportMatters(cfg, w, Run(cfg, w, events), id, code, message);
  }

  lemma ReportMatters(cfg: Config, w: World, m: Machine, id: int, code: int, message: string)
    requires 1 <= id && Sound(cfg, w, m) && Numbered(m.log)
    ensures var t := Report(m, id, code, message);
            t == m || (code != 0 && Matters(m, id, t))
  {
    var t := Report(m, id, code, message);
    if t != m {
      assert Is(m, id, m.log[id - 1].kind);
      var k := id - 1;
      assert m.log[k].id == k + 1;
    }
  }

  /** A failure reported for id 0 is taken for one of the capture while none is live: it leaves phase and
      log alone exactly while a capture is live, or after an error. */
  lemma ZeroReportsKeep(cfg: Config, w: World, events: seq<Event>, code: int, message: string)
    requires code != 0
    ensures var m := Run(cfg, w, events);
            var t := Report(m, 0, code, message);
            t.log == m.log && (t.phase == m.phase <==> m.phase.Capturing? || m.phase.Cooldown? || m.phase.Error?)
  {
    RunSound(cfg, w, events);
  }

  /** The countdown shown to the phone stays within the longest wait a request can ask for. */
  lemma CountdownInRange(cfg: Config, w: World, events: seq<Event>)
    ensures 0 <= CountdownRemaining(w, Run(cfg, w, events)) <= Longest(cfg)
  {
    RunSound(cfg, w, events);
  }

  // ---------------------------------------------------------------- after an error

  /** The calls that lead out of an error. */
  predicate Rescues(e: Event) {
    e.StopCall? || e == CameraReadyCall(false) || e == WifiReadyCall(false)
  }

  lemma ErrorStep(cfg: Config, w: World, m: Machine, e: Event)
    requires m.phase == Error(true)
    ensures var t := Step(cfg, w, m, e).0;
            t.log == m.log && (t.phase == Error(true) <==> !Rescues(e))
  {
    hide BeginCapture, TickFocus, CaptureIfDue;
  }

  /** An error of a running machine lasts until a stop or a readiness loss, and no other call gets anything
      out of the machine. */
  lemma {:induction false} ErrorAbsorbs(cfg: Config, w: World, events: seq<Event>, later: seq<Event>, e: Event)
    requires Run(cfg, w, events).phase == Error(true) && forall q :: q in later ==> !Rescues(q)
    ensures var n := Run(cfg, w, events + later);
            && n.phase == Error(true) && n.log == Run(cfg, w, events).log
            && Step(cfg, w, n, e).0.log == n.log && (Step(cfg, w, n, e).0.phase == Error(true) <==> !Rescues(e))
    decreases |later|
  {
    hide Step, Rescues;
    var all := events + later;
    if later == [] {
      assert all == events;
    } else {
      var before, q := later[..|later| - 1], later[|later| - 1];
      assert all[..|all| - 1] == events + before && all[|all| - 1] == q;
      ErrorAbsorbs(cfg, w, events, before, q);
    }
    ErrorStep(cfg, w, Run(cfg, w, all), e);
  }

  // ---------------------------------------------------------------- readiness

  /** An error is an error of a running machine whose camera and network are ready. */
  predicate ErrorMeansReady(m: Machine) {
    m.phase.Error? ==> m.phase.live && m.cameraReady && m.wifiReady
  }

  /** Screen updates travel under id 0; their results are not reported. */
  predicate ReportsZero(e: Event) {
    e.ReportCall? && e.id == 0 && e.code != 0
  }

  /** A failure reported for id 0 is taken for a failed capture while none is live: that, and nothing
      else, can put a machine that is not ready into ERROR. */
  lemma OnlyZeroReportsBreakReadiness(cfg: Config, w: World, m: Machine, e: Event)
    requires Sound(cfg, w, m) && ErrorMeansReady(m)
    ensures ErrorMeansReady(Step(cfg, w, m, e).0) <==>
            !(ReportsZero(e) && (m.phase.Stopped? || m.phase.Starting?))
  {
    hide Tick, BeginCapture;
    match e
    case RequestCall(id, delay, autofocus) =>
      if Grantable(cfg, m, delay) {
        TickStaysReady(cfg, w, Scheduled(cfg, w, m, id, delay, autofocus));
      }
    case TickCall => TickStaysReady(cfg, w, m);
    case ShutterCall(pressed) => ShutterStaysReady(cfg, w, m, pressed);
    case _ =>
  }

  lemma TickStaysReady(cfg: Config, w: World, m: Machine)
    requires Settled(m) && ErrorMeansReady(m)
    ensures ErrorMeansReady(Tick(cfg, w, m))
  {
  }

  lemma ShutterStaysReady(cfg: Config, w: World, m: Machine, pressed: bool)
    requires Settled(m) && ErrorMeansReady(m)
    ensures ErrorMeansReady(Shutter(cfg, w, m, pressed).0)
  {
    if !pressed && m.phase.Capturing? {
      TickStaysReady(cfg, w, LetGo(w, m));
    }
    hide Tick;
  }

  lemma {:induction false} RunErrorMeansReady(cfg: Config, w: World, events: seq<Event>)
    requires forall e :: e in events ==> !ReportsZero(e)
    ensures ErrorMeansReady(Run(cfg, w, events))
  {
    if events != [] {
      var before := events[..|events| - 1];
      RunErrorMeansReady(cfg, w, before);
      RunSound(cfg, w, before);
      OnlyZeroReportsBreakReadiness(cfg, w, Run(cfg, w, before), events[|events| - 1]);
    }
  }

  lemma ZeroReportExample(cfg: Config, w: World)
    ensures Run(cfg, w, [ReportCall(0, -1, "activity paused")]).phase == Error(false)
    ensures var m := Run(cfg, w, [StartCall, ReportCall(0, -1, "activity paused")]);
            m.phase == Error(true) && !m.cameraReady && !m.wifiReady
  {
    var r := ReportCall(0, -1, "activity paused");
    assert [r][..0] == [] && [StartCall, r][..1] == [StartCall] && [StartCall][..0] == [];
    assert Run(cfg, w, []) == INITIAL;
    assert Run(cfg, w, [StartCall]) == Start(INITIAL);
  }
}
