/** What every run of the machine shows to the outside: a trace of permissions, commands and resets,
    and a small watcher that accepts only traces keeping the promises made to the camera. */
module Runs {
  import opened Types
  import opened Machine

  // ---------------------------------------------------------------- traces

  /** A permission to take one picture. */
  datatype Grant =
    | WebGrant(at: int, delay: int, autofocus: bool)
    | FocusGrant
    | KeyGrant

  datatype Obs =
    | Granted(grant: Grant)
    | Revoked
    | Sent(order: Order)
    | Reset(lost: bool)

  function Sents(orders: seq<Order>): seq<Obs> {
    if orders == [] then [] else [Sent(orders[0])] + Sents(orders[1..])
  }

  function NewOrders(m: Machine, t: Machine): seq<Order> {
    if |m.log| <= |t.log| then t.log[|m.log|..] else []
  }

  predicate KeyTaken(m: Machine) {
    Running(m.phase) && m.cameraReady && (m.phase.Pending? || m.phase.Armed? || m.phase.HalfPress?)
  }

  function Attempt(grant: Grant, sent: seq<Obs>, ok: bool): seq<Obs> {
    [Granted(grant)] + sent + if ok then [] else [Revoked]
  }

  /** What one call shows. The cancel command a stop may send belongs to the reset. */
  function Observe(cfg: Config, w: World, m: Machine, e: Event): seq<Obs> {
    var (t, ok) := Step(cfg, w, m, e);
    var sent := Sents(NewOrders(m, t));
    match e
    case StopCall => [Reset(true)]
    case CameraReadyCall(ready) => if ready then [] else [Reset(true)]
    case WifiReadyCall(ready) => if ready then [] else [Reset(true)]
    case ReportCall(_, _, _) => if t.phase == m.phase then [] else [Reset(false)]
    case RequestCall(_, delay, autofocus) =>
      if Grantable(cfg, m, delay) then Attempt(WebGrant(Now(w, m), delay, autofocus), sent, ok) else []
    case FocusCall(pressed) =>
      if pressed && m.phase.Armed? then Attempt(FocusGrant, sent, ok)
      else if ok then sent + [Revoked] else []
    case ShutterCall(pressed) =>
      if pressed && KeyTaken(m) then Attempt(KeyGrant, sent, ok) else sent
    case CancelCall => if ok then sent + [Revoked] else []
    case StartCall => []
    case ClockRead => []
    case TickCall => sent
  }

  function Trace(cfg: Config, w: World, events: seq<Event>): seq<Obs> {
    if events == [] then []
    else
      var before := events[..|events| - 1];
      Trace(cfg, w, before) + Observe(cfg, w, Run(cfg, w, before), events[|events| - 1])
  }

  // ---------------------------------------------------------------- the watcher

  datatype Mode = Idle | Focusing | Held(at: int, physical: bool)

  datatype Watch = Watch(mode: Mode, grant: Option<Grant>, last: Option<int>)

  const UNSEEN := Watch(Idle, None, None)

  predicate WantsFocus(g: Grant) {
    g.FocusGrant? || (g.WebGrant? && g.autofocus)
  }

  /** May this order follow? Autofocus is started only for who asked for it. A capture needs a grant, its
      due time, its own autofocus if asked for, and the cooldown since the last capture; a release needs
      its capture, and its hold. */
  predicate Legal(cfg: Config, s: Watch, o: Order) {
    match o.kind
    case StartAutofocus => s.mode.Idle? && s.grant.Some? && WantsFocus(s.grant.value)
    case CancelAutofocus => s.mode.Focusing?
    case Capture =>
      && !s.mode.Held?
      && (s.last.Some? ==> s.last.value + cfg.cooldownMs <= o.at)
      && (o.accepted ==> s.grant.Some? && Honours(cfg, s, o.at))
    case ReleaseShutter => s.mode.Held? && (!s.mode.physical ==> s.mode.at + cfg.webShutterHoldMs <= o.at)
  }

  predicate Honours(cfg: Config, s: Watch, at: int)
    requires s.grant.Some?
  {
    match s.grant.value
    case WebGrant(asked, delay, autofocus) =>
      Due(cfg, asked, delay, autofocus) <= at && (autofocus <==> s.mode.Focusing?)
    case FocusGrant => s.mode.Focusing?
    case KeyGrant => true
  }

  function Obey(s: Watch, o: Order): Watch {
    if !o.accepted then s.(mode := Idle)
    else
      match o.kind
      case StartAutofocus => s.(mode := Focusing)
      case CancelAutofocus => s.(mode := Idle)
      case Capture => Watch(Held(o.at, s.grant == Some(KeyGrant)), None, Some(o.at))
      case ReleaseShutter => s.(mode := Idle)
  }

  /** One observation; `None` is a broken promise. */
  function See(cfg: Config, s: Watch, o: Obs): Option<Watch> {
    match o
    case Granted(g) =>
      if s.mode.Held? || (s.mode.Focusing? && !g.KeyGrant?) then None else Some(s.(grant := Some(g)))
    case Revoked => if s.mode.Idle? then Some(s.(grant := None)) else None
    case Reset(lost) => Some(Watch(Idle, None, if lost then None else s.last))
    case Sent(order) => if Legal(cfg, s, order) then Some(Obey(s, order)) else None
  }

  function SeeAll(cfg: Config, s: Watch, os: seq<Obs>): Option<Watch>
    decreases |os|
  {
    if os == [] then Some(s)
    else
      match See(cfg, s, os[0])
      case None => None
      case Some(t) => SeeAll(cfg, t, os[1..])
  }

  lemma {:induction false} SeeAllAppend(cfg: Config, s: Watch, a: seq<Obs>, b: seq<Obs>)
    ensures SeeAll(cfg, s, a + b) ==
            match SeeAll(cfg, s, a)
            case None => None
            case Some(t) => SeeAll(cfg, t, b)
    decreases |a|
  {
    if a == [] {
      assert a + b == b;
    } else {
      assert (a + b)[1..] == a[1..] + b;
      if See(cfg, s, a[0]).Some? {
        SeeAllAppend(cfg, See(cfg, s, a[0]).value, a[1..], b);
      }
    }
  }

  // ---------------------------------------------------------------- the machine keeps the promises

  predicate Active(p: Phase) {
    p.Armed? || p.HalfPress? || p.Pending? || p.Capturing? || p.Cooldown?
  }

  /** Readiness and phase agree, in every run. */
  predicate Settled(m: Machine) {
    && (m.phase.Starting? ==> !(m.cameraReady && m.wifiReady))
    && (Active(m.phase) ==> m.cameraReady && m.wifiReady)
  }

  function ModeOf(p: Phase, s: Watch): Mode {
    match p
    case HalfPress(_) => Focusing
    case Pending(FocusSent(_), _) => Focusing
    case Capturing(_, physical, _, _, _) => if s.mode.Held? then Held(s.mode.at, physical) else Held(0, physical)
    case _ => Idle
  }

  /** The grant the machine is working on is the one the watcher remembers. */
  predicate GrantAgrees(cfg: Config, p: Phase, grant: Option<Grant>) {
    match p
    case HalfPress(_) => grant == Some(FocusGrant)
    case Pending(focus, captureAt) =>
      && grant.Some? && grant.value.WebGrant?
      && captureAt == Due(cfg, grant.value.at, grant.value.delay, grant.value.autofocus)
      && (focus.NoFocus? <==> !grant.value.autofocus)
      && (focus.FocusAt? ==> focus.deadline <= captureAt)
    case _ => true
  }

  /** The cooldown since the last capture is over, or still guarded. */
  predicate CooldownAgrees(cfg: Config, w: World, m: Machine, last: Option<int>) {
    last.Some? ==>
      match m.phase
      case Stopped => false
      case Starting => false
      case Error(live) => live
      case Capturing(_, _, _, _, coolAt) => last.value + cfg.cooldownMs <= coolAt
      case Cooldown(_, _, _, coolAt) => last.value + cfg.cooldownMs <= coolAt
      case _ => last.value + cfg.cooldownMs <= Now(w, m)
  }

  predicate Agrees(cfg: Config, w: World, m: Machine, s: Watch) {
    && Settled(m)
    && s.mode == ModeOf(m.phase, s)
    && GrantAgrees(cfg, m.phase, s.grant)
    && CooldownAgrees(cfg, w, m, s.last)
    && (m.phase.Capturing? && !m.phase.physical ==> s.mode.at + cfg.webShutterHoldMs <= m.phase.releaseAt)
  }

  /** The orders that lead from `m` to `t` are legal for `s`, and `t` agrees with the watcher `u` after them. */
  predicate Leads(cfg: Config, w: World, m: Machine, s: Watch, t: Machine, u: Watch) {
    && m.log <= t.log
    && SeeAll(cfg, s, Sents(t.log[|m.log|..])) == Some(u)
    && Agrees(cfg, w, t, u)
  }

  lemma LeadsNowhere(cfg: Config, w: World, m: Machine, t: Machine, s: Watch)
    requires m.log == t.log && Agrees(cfg, w, t, s)
    ensures Leads(cfg, w, m, s, t, s)
  {
    assert t.log[|m.log|..] == [];
  }

  lemma LeadsByOne(cfg: Config, w: World, m: Machine, t: Machine, s: Watch, o: Order)
    requires t.log == m.log + [o] && Legal(cfg, s, o) && Agrees(cfg, w, t, Obey(s, o))
    ensures Leads(cfg, w, m, s, t, Obey(s, o))
  {
    assert t.log[|m.log|..] == [o];
    assert [o][1..] == [];
    var one := [Sent(o)];
    assert Sents([o]) == one && one[1..] == [];
  }

  lemma {:induction false} SentsAppend(a: seq<Order>, b: seq<Order>)
    ensures Sents(a + b) == Sents(a) + Sents(b)
  {
    if a == [] {
      assert a + b == b;
    } else {
      assert (a + b)[1..] == a[1..] + b;
      SentsAppend(a[1..], b);
    }
  }

  lemma LeadsOn(cfg: Config, w: World, m: Machine, s: Watch, t: Machine, u: Watch, t': Machine, u': Watch)
    requires Leads(cfg, w, m, s, t, u) && Leads(cfg, w, t, u, t', u')
    ensures Leads(cfg, w, m, s, t', u')
  {
    var a, b := t.log[|m.log|..], t'.log[|t.log|..];
    assert t'.log[|m.log|..] == a + b;
    SentsAppend(a, b);
    SeeAllAppend(cfg, s, Sents(a), Sents(b));
  }

  /** Offering a command that is legal now. */
  ghost function Told(w: World, m: Machine, s: Watch, kind: Command): Watch {
    Obey(s, Order(|m.log| + 1, kind, Now(w, m), WillAccept(w, m)))
  }

  lemma CaptureKeeps(cfg: Config, w: World, m: Machine, physical: bool, focused: bool, s: Watch)
    returns (u: Watch)
    requires m.cameraReady && m.wifiReady && Running(m.phase) && !s.mode.Held?
    requires s.last.Some? ==> s.last.value + cfg.cooldownMs <= Now(w, m)
    requires s.grant.Some? && Honours(cfg, s, Now(w, m)) && s.grant.value.KeyGrant? == physical
    ensures Leads(cfg, w, m, s, BeginCapture(cfg, w, m, physical, focused), u)
  {
    w.Monotone(m.instant, m.instant + 1);
    var o := Order(|m.log| + 1, Capture, Now(w, m), WillAccept(w, m));
    u := Obey(s, o);
    LeadsByOne(cfg, w, m, BeginCapture(cfg, w, m, physical, focused), s, o);
  }

  lemma PendingTickKeeps(cfg: Config, w: World, m: Machine, s: Watch) returns (u: Watch)
    requires Agrees(cfg, w, m, s) && m.phase.Pending?
    ensures Leads(cfg, w, m, s, Tick(cfg, w, m), u)
  {
    var now := Now(w, m);
    var f := TickFocus(w, m.(instant := m.instant + 1), now);
    w.Monotone(m.instant, m.instant + 1);
    w.Monotone(m.instant, m.instant + 2);
    if m.phase.focus.FocusAt? && m.phase.focus.deadline <= now {
      u := Told(w, m.(instant := m.instant + 1), s, StartAutofocus);
      LeadsByOne(cfg, w, m, f, s, f.log[|m.log|]);
    } else {
      u := s;
      LeadsNowhere(cfg, w, m, f, s);
    }
    if f.phase.Pending? && m.phase.captureAt <= now {
      var v := CaptureKeeps(cfg, w, f, false, Focused(f.phase), u);
      LeadsOn(cfg, w, m, s, f, u, Tick(cfg, w, m), v);
      u := v;
    }
  }

  lemma TickKeeps(cfg: Config, w: World, m: Machine, s: Watch) returns (u: Watch)
    requires Agrees(cfg, w, m, s)
    ensures Leads(cfg, w, m, s, Tick(cfg, w, m), u)
  {
    var now := Now(w, m);
    var n := m.(instant := m.instant + 1);
    w.Monotone(m.instant, m.instant + 1);
    w.Monotone(m.instant, m.instant + 2);
    u := s;
    match m.phase
    case Pending(_, _) =>
      u := PendingTickKeeps(cfg, w, m, s);
    case HalfPress(_) =>
      u := CaptureKeeps(cfg, w, n, false, true, s);
    case Capturing(_, _, _, releaseAt, _) =>
      if 0 < releaseAt <= now {
        u := Told(w, n, s, ReleaseShutter);
        LeadsByOne(cfg, w, m, Tick(cfg, w, m), s, Tick(cfg, w, m).log[|m.log|]);
      } else {
        LeadsNowhere(cfg, w, m, n, s);
      }
    case _ =>
      LeadsNowhere(cfg, w, m, Tick(cfg, w, m), s);
  }

  /** Dropping what was pending, whatever grant has replaced it meanwhile. */
  lemma UnfocusKeeps(cfg: Config, w: World, m: Machine, s: Watch, t: Machine, dropped: Option<Grant>)
    returns (u: Watch)
    requires Agrees(cfg, w, m, s.(grant := dropped)) && (m.phase.Pending? || m.phase.HalfPress?)
    requires t.phase.Armed? && t.log == Unfocus(w, m).log && t.instant == Unfocus(w, m).instant
    requires t.cameraReady && t.wifiReady
    ensures Leads(cfg, w, m, s, t, u) && u.mode.Idle? && u.grant == s.grant
  {
    w.Monotone(m.instant, m.instant + 1);
    if Focused(m.phase) {
      u := Told(w, m, s, CancelAutofocus);
      LeadsByOne(cfg, w, m, t, s, t.log[|m.log|]);
    } else {
      u := s;
      LeadsNowhere(cfg, w, m, t, s);
    }
  }

  lemma AttemptKeeps(cfg: Config, w: World, m: Machine, s: Watch, g: Grant, t: Machine, ok: bool, u: Watch)
    requires See(cfg, s, Granted(g)) == Some(s.(grant := Some(g)))
    requires Leads(cfg, w, m, s.(grant := Some(g)), t, u)
    requires !ok ==> t.phase.Error?
    ensures Kept(cfg, w, s, Attempt(g, Sents(NewOrders(m, t)), ok), t)
  {
    var sent := Sents(NewOrders(m, t));
    var last := if ok then [] else [Revoked];
    assert ([Granted(g)] + sent)[1..] == sent;
    assert SeeAll(cfg, s, [Granted(g)] + sent) == Some(u);
    SeeAllAppend(cfg, s, [Granted(g)] + sent, last);
    assert last != [] ==> last[1..] == [];
  }

  /** The watcher accepts what a call showed and agrees with the machine after it. */
  predicate Kept(cfg: Config, w: World, s: Watch, os: seq<Obs>, t: Machine) {
    SeeAll(cfg, s, os).Some? && Agrees(cfg, w, t, SeeAll(cfg, s, os).value)
  }

  lemma RevokeKeeps(cfg: Config, w: World, m: Machine, s: Watch, t: Machine, u: Watch)
    requires Leads(cfg, w, m, s, t, u) && t.phase.Armed? && u.mode.Idle?
    ensures Kept(cfg, w, s, Sents(NewOrders(m, t)) + [Revoked], t)
  {
    SeeAllAppend(cfg, s, Sents(NewOrders(m, t)), [Revoked]);
    assert [Revoked][1..] == [];
  }

  lemma RequestKeeps(cfg: Config, w: World, m: Machine, s: Watch, id: string, delay: int, autofocus: bool)
    requires Agrees(cfg, w, m, s) && Grantable(cfg, m, delay)
    ensures Kept(cfg, w, s, Observe(cfg, w, m, RequestCall(id, delay, autofocus)),
                 Request(cfg, w, m, id, delay, autofocus).0)
  {
    var g := WebGrant(Now(w, m), delay, autofocus);
    var n := Scheduled(cfg, w, m, id, delay, autofocus);
    w.Monotone(m.instant, m.instant + 1);
    assert Agrees(cfg, w, n, s.(grant := Some(g)));
    var u := TickKeeps(cfg, w, n, s.(grant := Some(g)));
    var (t, ok, _) := Request(cfg, w, m, id, delay, autofocus);
    AttemptKeeps(cfg, w, m, s, g, t, ok, u);
  }

  lemma FocusKeeps(cfg: Config, w: World, m: Machine, s: Watch, pressed: bool)
    requires Agrees(cfg, w, m, s)
    ensures Kept(cfg, w, s, Observe(cfg, w, m, FocusCall(pressed)), SetFocus(w, m, pressed).0)
  {
    var (t, ok, _) := SetFocus(w, m, pressed);
    w.Monotone(m.instant, m.instant + 1);
    if pressed && m.phase.Armed? {
      var g := s.(grant := Some(FocusGrant));
      LeadsByOne(cfg, w, m, t, g, t.log[|m.log|]);
      AttemptKeeps(cfg, w, m, s, FocusGrant, t, ok, Told(w, m, g, StartAutofocus));
    } else if ok {
      var u := UnfocusKeeps(cfg, w, m, s, t, s.grant);
      RevokeKeeps(cfg, w, m, s, t, u);
    }
  }

  lemma KeyKeeps(cfg: Config, w: World, m: Machine, s: Watch)
    requires Agrees(cfg, w, m, s) && KeyTaken(m)
    ensures Kept(cfg, w, s, Observe(cfg, w, m, ShutterCall(true)), Shutter(cfg, w, m, true).0)
  {
    var (t, ok, _) := Shutter(cfg, w, m, true);
    var g := s.(grant := Some(KeyGrant));
    var v;
    if m.phase.Pending? {
      v := DropThenCapture(cfg, w, m, s, t);
    } else {
      v := CaptureKeeps(cfg, w, Pressed(w, m), true, m.phase.HalfPress?, g);
    }
    AttemptKeeps(cfg, w, m, s, KeyGrant, t, ok, v);
  }

  lemma DropThenCapture(cfg: Config, w: World, m: Machine, s: Watch, t: Machine) returns (v: Watch)
    requires Agrees(cfg, w, m, s) && m.phase.Pending?
    requires t == BeginCapture(cfg, w, Pressed(w, m), true, false)
    ensures Leads(cfg, w, m, s.(grant := Some(KeyGrant)), t, v)
  {
    var g := s.(grant := Some(KeyGrant));
    var f := Pressed(w, m).(phase := Armed);
    var u := UnfocusKeeps(cfg, w, m, g, f, s.grant);
    v := CaptureKeeps(cfg, w, f, true, false, u);
    LeadsOn(cfg, w, m, g, f, u, t, v);
  }

  lemma ShutterKeeps(cfg: Config, w: World, m: Machine, s: Watch, pressed: bool)
    requires Agrees(cfg, w, m, s)
    ensures Kept(cfg, w, s, Observe(cfg, w, m, ShutterCall(pressed)), Shutter(cfg, w, m, pressed).0)
  {
    var t := Shutter(cfg, w, m, pressed).0;
    w.Monotone(m.instant, m.instant + 1);
    if pressed && KeyTaken(m) {
      KeyKeeps(cfg, w, m, s);
    } else if t == m {
      LeadsNowhere(cfg, w, m, m, s);
    } else {
      var u := TickKeeps(cfg, w, LetGo(w, m), s);
    }
  }

  lemma StepKeeps(cfg: Config, w: World, m: Machine, s: Watch, e: Event)
    requires Agrees(cfg, w, m, s)
    ensures Kept(cfg, w, s, Observe(cfg, w, m, e), Step(cfg, w, m, e).0)
  {
    var t := Step(cfg, w, m, e).0;
    match e
    case RequestCall(id, delay, autofocus) =>
      if Grantable(cfg, m, delay) {
        RequestKeeps(cfg, w, m, s, id, delay, autofocus);
      }
    case FocusCall(pressed) => FocusKeeps(cfg, w, m, s, pressed);
    case ShutterCall(pressed) => ShutterKeeps(cfg, w, m, s, pressed);
    case CancelCall =>
      if m.phase.Pending? || m.phase.HalfPress? {
        var u := UnfocusKeeps(cfg, w, m, s, t, s.grant);
        RevokeKeeps(cfg, w, m, s, t, u);
      }
    case TickCall =>
      var u := TickKeeps(cfg, w, m, s);
    case _ => ResetKeeps(cfg, w, m, s, e);
  }

  lemma ResetKeeps(cfg: Config, w: World, m: Machine, s: Watch, e: Event)
    requires Agrees(cfg, w, m, s)
    requires e.StartCall? || e.StopCall? || e.CameraReadyCall? || e.WifiReadyCall? || e.ReportCall? || e.ClockRead?
    ensures Kept(cfg, w, s, Observe(cfg, w, m, e), Step(cfg, w, m, e).0)
  {
    assert forall lost :: [Reset(lost)][1..] == [];
  }

  /** Every run keeps every promise of the watcher. */
  lemma {:induction false} RunIsWatched(cfg: Config, w: World, events: seq<Event>)
    ensures Kept(cfg, w, UNSEEN, Trace(cfg, w, events), Run(cfg, w, events))
  {
    if events != [] {
      var before := events[..|events| - 1];
      var m, e := Run(cfg, w, before), events[|events| - 1];
      RunIsWatched(cfg, w, before);
      var s := SeeAll(cfg, UNSEEN, Trace(cfg, w, before)).value;
      StepKeeps(cfg, w, m, s, e);
      SeeAllAppend(cfg, UNSEEN, Trace(cfg, w, before), Observe(cfg, w, m, e));
    }
  }
}
