/** What every run sends: captures are conserved, refused calls take nothing, and the trace shows all
    commands but the cancel a stop sends. */
module Reach {
  import opened Types
  import opened Machine
  import opened Runs

  // ---------------------------------------------------------------- conservation of captures

  predicate Taken(o: Order) {
    o.kind == Capture && o.accepted
  }

  /** How many pictures the camera was told to take, and accepted. */
  function Captures(log: seq<Order>): nat {
    if log == [] then 0
    else Captures(log[..|log| - 1]) + if Taken(log[|log| - 1]) then 1 else 0
  }

  /** The calls that may lead to a picture. */
  predicate Triggers(e: Event) {
    e.RequestCall? || (e.FocusCall? && e.pressed) || (e.ShutterCall? && e.pressed)
  }

  function GrantedCalls(cfg: Config, w: World, events: seq<Event>): nat {
    if events == [] then 0
    else
      var before, e := events[..|events| - 1], events[|events| - 1];
      GrantedCalls(cfg, w, before) +
      if Triggers(e) && Step(cfg, w, Run(cfg, w, before), e).1 then 1 else 0
  }

  /** A capture still to come: a pending request, or a half-press, which the next tick turns into one. */
  function Owed(p: Phase): nat {
    if p.Pending? || p.HalfPress? then 1 else 0
  }

  function TakenAt(log: seq<Order>, i: nat): nat {
    if i < |log| && Taken(log[i]) then 1 else 0
  }

  predicate NumberedAt(log: seq<Order>, i: nat) {
    i < |log| ==> log[i].id == i + 1
  }

  /** From `m` to `t` at most two orders were added, numbered on, and `n` of them took a picture. */
  predicate Took(m: Machine, t: Machine, n: nat) {
    && m.log <= t.log && |t.log| <= |m.log| + 2
    && NumberedAt(t.log, |m.log|) && NumberedAt(t.log, |m.log| + 1)
    && TakenAt(t.log, |m.log|) + TakenAt(t.log, |m.log| + 1) == n
  }

  lemma TookCaptures(m: Machine, t: Machine, n: nat)
    requires Took(m, t, n)
    ensures Captures(t.log) == Captures(m.log) + n
  {
    var k := |m.log|;
    if k < |t.log| {
      assert t.log[..k] == m.log;
      assert t.log[..k + 1][..k] == m.log;
      if k + 1 < |t.log| {
        assert t.log[..|t.log| - 1] == t.log[..k + 1];
      } else {
        assert t.log == t.log[..k + 1];
      }
    } else {
      assert t.log == m.log;
    }
  }

  lemma TookMore(m: Machine, f: Machine, t: Machine, o: Order)
    requires m.log <= f.log && |f.log| <= |m.log| + 1 && TakenAt(f.log, |m.log|) == 0
    requires t.log == f.log + [o] && o.id == |t.log| && NumberedAt(f.log, |m.log|)
    ensures Took(m, t, if Taken(o) then 1 else 0)
  {
  }

  lemma FocusTakesNone(w: World, m: Machine, now: int)
    ensures var f := TickFocus(w, m, now);
            && m.log <= f.log && |f.log| <= |m.log| + 1 && TakenAt(f.log, |m.log|) == 0
            && NumberedAt(f.log, |m.log|)
  {
  }

  lemma PendingTickConserves(cfg: Config, w: World, m: Machine) returns (n: nat)
    requires m.phase.Pending?
    ensures var t := Tick(cfg, w, m);
            Took(m, t, n) && n + Owed(t.phase) <= 1 && (t.phase.Error? ==> n == 0)
  {
    var now := Now(w, m);
    var f := TickFocus(w, m.(instant := m.instant + 1), now);
    FocusTakesNone(w, m.(instant := m.instant + 1), now);
    n := 0;
    if f.phase.Pending? && f.phase.captureAt <= now {
      TookMore(m, f, Tick(cfg, w, m), Order(|f.log| + 1, Capture, Now(w, f), WillAccept(w, f)));
      n := if WillAccept(w, f) then 1 else 0;
    }
  }

  /** A tick pays an owed capture at most once; if it ends in an error it took none. */
  lemma TickConserves(cfg: Config, w: World, m: Machine) returns (n: nat)
    ensures var t := Tick(cfg, w, m);
            Took(m, t, n) && n + Owed(t.phase) <= Owed(m.phase) && (t.phase.Error? ==> n == 0)
  {
    var t := Tick(cfg, w, m);
    n := 0;
    if m.phase.Pending? {
      n := PendingTickConserves(cfg, w, m);
    } else if m.phase.HalfPress? {
      n := if WillAccept(w, m) then 1 else 0;
    } else if m.log != t.log {
      assert t.log == m.log + [t.log[|m.log|]] && !Taken(t.log[|m.log|]);
    }
  }

  lemma KeyConserves(cfg: Config, w: World, m: Machine) returns (n: nat)
    requires KeyTaken(m)
    ensures var t := Shutter(cfg, w, m, true).0;
            && Took(m, t, n) && n + Owed(t.phase) <= 1 && (t.phase.Error? ==> n == 0)
  {
    var f := Pressed(w, m);
    assert m.log <= f.log && |f.log| <= |m.log| + 1 && TakenAt(f.log, |m.log|) == 0 && NumberedAt(f.log, |m.log|);
    TookMore(m, f, Shutter(cfg, w, m, true).0, Order(|f.log| + 1, Capture, Now(w, f), WillAccept(w, f)));
    n := if WillAccept(w, f) then 1 else 0;
  }

  lemma ShutterConserves(cfg: Config, w: World, m: Machine, pressed: bool) returns (n: nat)
    ensures var (t, ok, _) := Shutter(cfg, w, m, pressed);
            && Took(m, t, n) && n + Owed(t.phase) <= Owed(m.phase) + (if pressed && ok then 1 else 0)
            && (pressed && !ok ==> n == 0 && (t.phase.Error? || t == m))
  {
    n := 0;
    if pressed && KeyTaken(m) {
      n := KeyConserves(cfg, w, m);
    } else if !pressed && m.phase.Capturing? {
      var _ := TickConserves(cfg, w, LetGo(w, m));
    }
  }

  lemma RequestConserves(cfg: Config, w: World, m: Machine, id: string, delay: int, autofocus: bool)
    returns (n: nat)
    ensures var (t, ok, _) := Request(cfg, w, m, id, delay, autofocus);
            && Took(m, t, n) && n + Owed(t.phase) <= Owed(m.phase) + (if ok then 1 else 0)
            && (!ok ==> n == 0 && (t.phase.Error? || t == m))
  {
    n := 0;
    if Grantable(cfg, m, delay) {
      n := TickConserves(cfg, w, Scheduled(cfg, w, m, id, delay, autofocus));
    }
  }

  /** A call conserves captures; a trigger that returns false took no picture, and either changed
      nothing or left the machine in ERROR, where none is owed. */
  lemma StepConserves(cfg: Config, w: World, m: Machine, e: Event) returns (n: nat)
    ensures var (t, ok) := Step(cfg, w, m, e);
            && Took(m, t, n) && n + Owed(t.phase) <= Owed(m.phase) + (if Triggers(e) && ok then 1 else 0)
            && (Triggers(e) && !ok ==> n == 0 && (t.phase.Error? || t == m))
  {
    match e
    case RequestCall(id, delay, autofocus) => n := RequestConserves(cfg, w, m, id, delay, autofocus);
    case ShutterCall(pressed) => n := ShutterConserves(cfg, w, m, pressed);
    case TickCall => n := TickConserves(cfg, w, m);
    case _ => n := QuietConserves(cfg, w, m, e);
  }

  lemma QuietConserves(cfg: Config, w: World, m: Machine, e: Event) returns (n: nat)
    requires !e.RequestCall? && !e.ShutterCall? && !e.TickCall?
    ensures n == 0
    ensures var (t, ok) := Step(cfg, w, m, e);
            && Took(m, t, 0) && Owed(t.phase) <= Owed(m.phase) + (if Triggers(e) && ok then 1 else 0)
            && (Triggers(e) && !ok ==> t.phase.Error? || t == m)
  {
    n := 0;
    hide Tick, Shutter, Request, TakenAt, NumberedAt;
    if e.FocusCall? || e.CancelCall? || e.StopCall? {
      CancelConserves(w, m, e, cfg);
    } else {
      NothingTaken(m, Step(cfg, w, m, e).0);
    }
  }

  lemma NothingTaken(m: Machine, t: Machine)
    requires t.log == m.log
    ensures Took(m, t, 0)
  {
  }

  lemma CancelConserves(w: World, m: Machine, e: Event, cfg: Config)
    requires e.FocusCall? || e.CancelCall? || e.StopCall?
    ensures var (t, ok) := Step(cfg, w, m, e);
            && Took(m, t, 0) && Owed(t.phase) <= Owed(m.phase) + (if Triggers(e) && ok then 1 else 0)
            && (Triggers(e) && !ok ==> t.phase.Error? || t == m)
  {
    hide Tick, Shutter, Request;
  }

  /** The camera never takes more pictures than calls were granted, and one granted call that is still
      owed its picture has not been counted yet. */
  lemma {:induction false} CapturesAreGranted(cfg: Config, w: World, events: seq<Event>)
    ensures Captures(Run(cfg, w, events).log) + Owed(Run(cfg, w, events).phase)
            <= GrantedCalls(cfg, w, events)
  {
    if events != [] {
      var before, e := events[..|events| - 1], events[|events| - 1];
      var m := Run(cfg, w, before);
      CapturesAreGranted(cfg, w, before);
      var n := StepConserves(cfg, w, m, e);
      TookCaptures(m, Step(cfg, w, m, e).0, n);
    }
  }

  lemma FailedTickTakesNothing(cfg: Config, w: World, m: Machine)
    requires m.phase.Pending? && Tick(cfg, w, m).phase.Error?
    ensures Took(m, Tick(cfg, w, m), 0)
  {
  }

  lemma RefusedKeyTakesNothing(cfg: Config, w: World, m: Machine)
    requires !Shutter(cfg, w, m, true).1
    ensures var t := Shutter(cfg, w, m, true).0;
            Took(m, t, 0) && (t.phase == m.phase || Owed(t.phase) == 0)
  {
    hide Tick;
  }

  /** A call that asks for a picture and is refused takes none and leaves none pending of its own. */
  lemma RefusedCallsTakeNothing(cfg: Config, w: World, m: Machine, e: Event)
    requires Triggers(e) && !Step(cfg, w, m, e).1
    ensures var t := Step(cfg, w, m, e).0;
            Took(m, t, 0) && (t.phase == m.phase || Owed(t.phase) == 0)
  {
    hide Tick, Shutter;
    match e
    case RequestCall(id, delay, autofocus) =>
      if Grantable(cfg, m, delay) {
        FailedTickTakesNothing(cfg, w, Scheduled(cfg, w, m, id, delay, autofocus));
      }
    case ShutterCall(pressed) => RefusedKeyTakesNothing(cfg, w, m);
    case FocusCall(pressed) =>
  }

  // ---------------------------------------------------------------- the trace shows the whole log

  function Orders(os: seq<Obs>): seq<Order> {
    if os == [] then []
    else
      var o := os[|os| - 1];
      Orders(os[..|os| - 1]) + if o.Sent? then [o.order] else []
  }

  lemma {:induction false} OrdersAppend(a: seq<Obs>, b: seq<Obs>)
    ensures Orders(a + b) == Orders(a) + Orders(b)
  {
    if b == [] {
      assert a + b == a;
    } else {
      assert (a + b)[..|a + b| - 1] == a + b[..|b| - 1];
      OrdersAppend(a, b[..|b| - 1]);
    }
  }

  lemma {:induction false} OrdersOfSents(orders: seq<Order>)
    ensures Orders(Sents(orders)) == orders
  {
    if orders != [] {
      var rest := orders[1..];
      OrdersOfSents(rest);
      OrdersAppend([Sent(orders[0])], Sents(rest));
      assert orders == [orders[0]] + rest;
      assert [Sent(orders[0])][..0] == [];
    }
  }

  lemma AttemptShows(g: Grant, sent: seq<Order>, ok: bool)
    ensures Orders(Attempt(g, Sents(sent), ok)) == sent
  {
    var last := if ok then [] else [Revoked];
    OrdersOfSents(sent);
    assert [Granted(g)][..0] == [] && [Revoked][..0] == [];
    OrdersAppend([Granted(g)], Sents(sent));
    OrdersAppend([Granted(g)] + Sents(sent), last);
  }

  lemma RevokeShows(sent: seq<Order>)
    ensures Orders(Sents(sent) + [Revoked]) == sent
  {
    OrdersOfSents(sent);
    assert [Revoked][..0] == [];
    OrdersAppend(Sents(sent), [Revoked]);
  }

  /** What a call sends in the sight of the watcher: all it sends, unless it is a stop. */
  function Visible(cfg: Config, w: World, m: Machine, e: Event): seq<Order> {
    if e.StopCall? then [] else NewOrders(m, Step(cfg, w, m, e).0)
  }

  predicate Shows(cfg: Config, w: World, m: Machine, e: Event) {
    Orders(Observe(cfg, w, m, e)) == Visible(cfg, w, m, e)
  }

  lemma ResetShows(cfg: Config, w: World, m: Machine, e: Event)
    requires e.StartCall? || e.StopCall? || e.CameraReadyCall? || e.WifiReadyCall? || e.ReportCall? || e.ClockRead?
    ensures Shows(cfg, w, m, e)
  {
    assert [Reset(true)][..0] == [] && [Reset(false)][..0] == [];
  }

  lemma AttemptedShows(cfg: Config, w: World, m: Machine, e: Event)
    requires e.RequestCall? || e.FocusCall?
    ensures Shows(cfg, w, m, e)
  {
    var (t, ok) := Step(cfg, w, m, e);
    match e
    case RequestCall(_, delay, autofocus) =>
      AttemptShows(WebGrant(Now(w, m), delay, autofocus), NewOrders(m, t), ok);
    case FocusCall(pressed) =>
      if pressed && m.phase.Armed? {
        AttemptShows(FocusGrant, NewOrders(m, t), ok);
      } else {
        RevokeShows(NewOrders(m, t));
      }
  }

  /** What a call shows is exactly what it sent, in order, cancels included. */
  lemma ObserveShows(cfg: Config, w: World, m: Machine, e: Event)
    ensures Shows(cfg, w, m, e)
  {
    var (t, ok) := Step(cfg, w, m, e);
    match e
    case RequestCall(_, _, _) => AttemptedShows(cfg, w, m, e);
    case FocusCall(_) => AttemptedShows(cfg, w, m, e);
    case ShutterCall(pressed) =>
      if pressed && KeyTaken(m) {
        AttemptShows(KeyGrant, NewOrders(m, t), ok);
      } else {
        OrdersOfSents(NewOrders(m, t));
      }
    case CancelCall => RevokeShows(NewOrders(m, t));
    case TickCall => OrdersOfSents(NewOrders(m, t));
    case _ => ResetShows(cfg, w, m, e);
  }

  /** The log of a run without what its stops sent. */
  function LogBesidesStops(cfg: Config, w: World, events: seq<Event>): seq<Order> {
    if events == [] then []
    else
      var before := events[..|events| - 1];
      LogBesidesStops(cfg, w, before) + Visible(cfg, w, Run(cfg, w, before), events[|events| - 1])
  }

  /** The trace of a run shows, in order, every order of the log but those its stops sent. */
  lemma {:induction false} TraceShowsTheLog(cfg: Config, w: World, events: seq<Event>)
    ensures Orders(Trace(cfg, w, events)) == LogBesidesStops(cfg, w, events)
  {
    hide Visible, Observe;
    if events != [] {
      var before, e := events[..|events| - 1], events[|events| - 1];
      TraceShowsTheLog(cfg, w, before);
      ObserveShows(cfg, w, Run(cfg, w, before), e);
      OrdersAppend(Trace(cfg, w, before), Observe(cfg, w, Run(cfg, w, before), e));
    }
  }

  /** A stop sends a cancel if autofocus is on, and nothing else; every other call adds to the log exactly
      what it shows. */
  lemma StopsOnlyCancel(cfg: Config, w: World, m: Machine, e: Event)
    ensures var sent := NewOrders(m, Step(cfg, w, m, e).0);
            && Step(cfg, w, m, e).0.log == m.log + sent
            && (e.StopCall? ==> |sent| == (if Focused(m.phase) then 1 else 0)
                                && forall o :: o in sent ==> o.kind == CancelAutofocus)
  {
    var n := StepConserves(cfg, w, m, e);
    hide Tick, Shutter, Request, SetFocus, CancelCountdown;
  }
}
