/** The promises the watcher stands for, stated directly about the trace of any run. */
module Promises {
  import opened Types
  import opened Machine
  import opened Runs

  predicate Accepted(o: Obs, kind: Command) {
    o.Sent? && o.order.kind == kind && o.order.accepted
  }

  predicate Watched(cfg: Config, tr: seq<Obs>) {
    SeeAll(cfg, UNSEEN, tr).Some?
  }

  lemma LastSeen(cfg: Config, tr: seq<Obs>, j: nat)
    requires Watched(cfg, tr) && j < |tr|
    ensures Watched(cfg, tr[..j]) && Watched(cfg, tr[..j + 1])
    ensures See(cfg, SeeAll(cfg, UNSEEN, tr[..j]).value, tr[j]) == SeeAll(cfg, UNSEEN, tr[..j + 1])
  {
    assert tr == tr[..j + 1] + tr[j + 1..] && tr[..j + 1] == tr[..j] + [tr[j]];
    SeeAllAppend(cfg, UNSEEN, tr[..j + 1], tr[j + 1..]);
    SeeAllAppend(cfg, UNSEEN, tr[..j], [tr[j]]);
    assert [tr[j]][1..] == [];
  }

  ghost function Before(cfg: Config, tr: seq<Obs>, j: nat): Watch
    requires Watched(cfg, tr) && j <= |tr|
  {
    var seen := SeeAll(cfg, UNSEEN, tr[..j]);
    if seen.Some? then seen.value else UNSEEN
  }

  /** The watcher's state after `j` observations, one step at a time. */
  lemma Onwards(cfg: Config, tr: seq<Obs>, j: nat)
    requires Watched(cfg, tr) && j < |tr|
    ensures See(cfg, Before(cfg, tr, j), tr[j]) == Some(Before(cfg, tr, j + 1))
  {
    LastSeen(cfg, tr, j);
  }

  // ---------------------------------------------------------------- order of commands

  lemma HeldAfterCapture(cfg: Config, tr: seq<Obs>, j: nat)
    requires Watched(cfg, tr) && j <= |tr|
    requires Before(cfg, tr, j).mode.Held?
    ensures 0 < j && Accepted(tr[j - 1], Capture)
    ensures Before(cfg, tr, j).mode ==
            Held(tr[j - 1].order.at, Before(cfg, tr, j - 1).grant == Some(KeyGrant))
  {
    if 0 < j {
      Onwards(cfg, tr, j - 1);
    }
  }

  /** Autofocus is on because a start was accepted, and since then only the shutter key was pressed. */
  lemma {:induction false} FocusingAfterStart(cfg: Config, tr: seq<Obs>, j: nat) returns (i: nat)
    requires Watched(cfg, tr) && j <= |tr|
    requires Before(cfg, tr, j).mode.Focusing?
    ensures FocusOn(tr, i, j)
    decreases j
  {
    if j == 0 {
      assert false;
    } else {
      Onwards(cfg, tr, j - 1);
      if Before(cfg, tr, j - 1).mode.Focusing? {
        i := FocusingAfterStart(cfg, tr, j - 1);
      } else {
        i := j - 1;
      }
    }
  }

  /** `tr[i]` is the permission an order at `j` works on: nothing but focus orders and refusals between. */
  predicate GrantOf(tr: seq<Obs>, i: int, j: int) {
    && 0 <= i < j < |tr|
    && tr[i].Granted?
    && forall k :: i < k < j ==> tr[k].Sent? && !Accepted(tr[k], Capture)
  }

  predicate Sends(o: Obs, kind: Command) {
    o.Sent? && o.order.kind == kind
  }

  /** The release at `j` directly follows its own accepted capture; a web release keeps the hold. */
  predicate OwnRelease(cfg: Config, tr: seq<Obs>, i: nat, j: nat) {
    && 0 < j < |tr| && Accepted(tr[j - 1], Capture) && tr[j].Sent?
    && GrantOf(tr, i, j - 1)
    && (tr[i].grant != KeyGrant ==> tr[j - 1].order.at + cfg.webShutterHoldMs <= tr[j].order.at)
  }

  lemma WatchedRelease(cfg: Config, tr: seq<Obs>, j: nat) returns (i: nat)
    requires Watched(cfg, tr) && j < |tr| && Sends(tr[j], ReleaseShutter)
    ensures OwnRelease(cfg, tr, i, j)
  {
    Onwards(cfg, tr, j);
    HeldAfterCapture(cfg, tr, j);
    Onwards(cfg, tr, j - 1);
    i := GrantOrigin(cfg, tr, j - 1);
  }

  ghost predicate ReleasesAreOwn(cfg: Config, tr: seq<Obs>) {
    forall j: nat :: j < |tr| && Sends(tr[j], ReleaseShutter) ==> exists i: nat :: OwnRelease(cfg, tr, i, j)
  }

  lemma ReleaseFollowsItsCapture(cfg: Config, w: World, events: seq<Event>)
    ensures ReleasesAreOwn(cfg, Trace(cfg, w, events))
  {
    var tr := Trace(cfg, w, events);
    RunIsWatched(cfg, w, events);
    hide Trace;
    forall j: nat | j < |tr| && Sends(tr[j], ReleaseShutter) ensures exists i: nat :: OwnRelease(cfg, tr, i, j) {
      var i := WatchedRelease(cfg, tr, j);
    }
  }

  /** What may follow an accepted capture is its release or a reset: no second capture, no focus command,
      no new permission. What may follow an accepted start of autofocus is a cancel, a capture, a reset, or
      the shutter key taking over: no second start. */
  predicate MayFollow(o: Obs, next: Obs) {
    && (Accepted(o, Capture) ==> next.Reset? || Sends(next, ReleaseShutter))
    && (Accepted(o, StartAutofocus) ==>
          next.Reset? || next == Granted(KeyGrant) || Sends(next, CancelAutofocus) || Sends(next, Capture))
  }

  lemma WatchedNext(cfg: Config, tr: seq<Obs>, j: nat)
    requires Watched(cfg, tr) && j + 1 < |tr|
    ensures MayFollow(tr[j], tr[j + 1])
  {
    Onwards(cfg, tr, j);
    Onwards(cfg, tr, j + 1);
  }

  predicate Alternating(tr: seq<Obs>) {
    forall j {:trigger tr[j]} :: 0 <= j < |tr| - 1 ==> MayFollow(tr[j], tr[j + 1])
  }

  /** What ends an autofocus that is on. */
  predicate EndsFocus(o: Obs) {
    o.Reset? || Sends(o, CancelAutofocus) || Sends(o, Capture)
  }

  /** After an accepted start of autofocus no second start is sent before something ended the first. */
  ghost predicate StartsApart(tr: seq<Obs>) {
    forall i, j :: 0 <= i < j < |tr| && Accepted(tr[i], StartAutofocus) && Sends(tr[j], StartAutofocus) ==>
      exists k :: i < k < j && EndsFocus(tr[k])
  }

  lemma {:induction false} FocusStays(cfg: Config, tr: seq<Obs>, i: nat, j: nat)
    requires Watched(cfg, tr) && i < j <= |tr| && Accepted(tr[i], StartAutofocus)
    requires forall k :: i < k < j ==> !EndsFocus(tr[k])
    ensures Before(cfg, tr, j).mode.Focusing?
    decreases j
  {
    Onwards(cfg, tr, j - 1);
    if i < j - 1 {
      FocusStays(cfg, tr, i, j - 1);
    }
  }

  lemma WatchedStarts(cfg: Config, tr: seq<Obs>, i: nat, j: nat)
    requires Watched(cfg, tr) && i < j < |tr|
    requires Accepted(tr[i], StartAutofocus) && Sends(tr[j], StartAutofocus)
    ensures exists k :: i < k < j && EndsFocus(tr[k])
  {
    Onwards(cfg, tr, j);
    if forall k :: i < k < j ==> !EndsFocus(tr[k]) {
      FocusStays(cfg, tr, i, j);
    }
  }

  lemma StartsAreApart(cfg: Config, w: World, events: seq<Event>)
    ensures StartsApart(Trace(cfg, w, events))
  {
    var tr := Trace(cfg, w, events);
    RunIsWatched(cfg, w, events);
    hide Trace;
    forall i, j | 0 <= i < j < |tr| && Accepted(tr[i], StartAutofocus) && Sends(tr[j], StartAutofocus)
      ensures exists k :: i < k < j && EndsFocus(tr[k])
    {
      WatchedStarts(cfg, tr, i, j);
    }
  }

  /** Commands alternate from one observation to the next, and starts of autofocus over any distance. */
  lemma CommandsAlternate(cfg: Config, w: World, events: seq<Event>)
    ensures Alternating(Trace(cfg, w, events))
    ensures StartsApart(Trace(cfg, w, events))
  {
    var tr := Trace(cfg, w, events);
    RunIsWatched(cfg, w, events);
    StartsAreApart(cfg, w, events);
    hide Trace, StartsApart;
    forall j | 0 <= j < |tr| - 1 ensures MayFollow(tr[j], tr[j + 1]) {
      WatchedNext(cfg, tr, j);
    }
  }

  /** The accepted start at `i` is still on at `j`: since then only the shutter key was pressed. */
  predicate FocusOn(tr: seq<Obs>, i: nat, j: nat) {
    i < j <= |tr| && Accepted(tr[i], StartAutofocus) && forall k :: i < k < j ==> tr[k] == Granted(KeyGrant)
  }

  /** A cancel always cancels an autofocus that was accepted and is still on. */
  ghost predicate CancelsAreDue(tr: seq<Obs>) {
    forall j: nat :: j < |tr| && Sends(tr[j], CancelAutofocus) ==> exists i: nat :: FocusOn(tr, i, j)
  }

  lemma CancelFollowsStart(cfg: Config, w: World, events: seq<Event>)
    ensures CancelsAreDue(Trace(cfg, w, events))
  {
    var tr := Trace(cfg, w, events);
    RunIsWatched(cfg, w, events);
    hide Trace;
    forall j: nat | j < |tr| && Sends(tr[j], CancelAutofocus) ensures exists i: nat :: FocusOn(tr, i, j) {
      var i := WatchedCancel(cfg, tr, j);
    }
  }

  lemma WatchedCancel(cfg: Config, tr: seq<Obs>, j: nat) returns (i: nat)
    requires Watched(cfg, tr) && j < |tr| && Sends(tr[j], CancelAutofocus)
    ensures FocusOn(tr, i, j)
  {
    Onwards(cfg, tr, j);
    i := FocusingAfterStart(cfg, tr, j);
  }

  // ---------------------------------------------------------------- each capture has its own grant

  lemma {:induction false} GrantOrigin(cfg: Config, tr: seq<Obs>, j: nat) returns (i: nat)
    requires Watched(cfg, tr) && j < |tr|
    requires Before(cfg, tr, j).grant.Some?
    ensures GrantOf(tr, i, j) && tr[i].grant == Before(cfg, tr, j).grant.value
    decreases j
  {
    if j == 0 {
      assert false;
    } else {
      Onwards(cfg, tr, j - 1);
      if tr[j - 1].Granted? {
        i := j - 1;
      } else {
        i := GrantOrigin(cfg, tr, j - 1);
      }
    }
  }

  /** What a permission asked for was kept by the capture at `j`. */
  ghost predicate Honoured(cfg: Config, tr: seq<Obs>, i: nat, j: nat)
    requires i < j < |tr| && tr[i].Granted? && tr[j].Sent?
  {
    match tr[i].grant
    case WebGrant(asked, delay, autofocus) =>
      && Due(cfg, asked, delay, autofocus) <= tr[j].order.at
      && (autofocus <==> exists k :: i < k < j && Accepted(tr[k], StartAutofocus))
    case FocusGrant => exists k :: i < k < j && Accepted(tr[k], StartAutofocus)
    case KeyGrant => true
  }

  lemma WatchedCapture(cfg: Config, tr: seq<Obs>, j: nat) returns (i: nat)
    requires Watched(cfg, tr) && j < |tr| && Accepted(tr[j], Capture)
    ensures GrantOf(tr, i, j) && Honoured(cfg, tr, i, j)
  {
    Onwards(cfg, tr, j);
    i := GrantOrigin(cfg, tr, j);
    if Before(cfg, tr, j).mode.Focusing? {
      var k := FocusingAfterStart(cfg, tr, j);
      assert Accepted(tr[k], StartAutofocus);
    }
    forall k | i < k < j && Accepted(tr[k], StartAutofocus)
      ensures WantsFocus(tr[i].grant)
    {
      GrantStays(cfg, tr, i, k);
      Onwards(cfg, tr, k);
    }
  }

  /** Every capture the camera takes was permitted once, by its own earlier call; a web capture is never
      early, and follows its own autofocus exactly if the request asked for autofocus. */
  ghost predicate AllPermitted(cfg: Config, tr: seq<Obs>) {
    forall j :: 0 <= j < |tr| && Accepted(tr[j], Capture) ==>
      exists i :: GrantOf(tr, i, j) && Honoured(cfg, tr, i, j)
  }

  lemma CaptureHasItsGrant(cfg: Config, w: World, events: seq<Event>)
    ensures AllPermitted(cfg, Trace(cfg, w, events))
  {
    var tr := Trace(cfg, w, events);
    RunIsWatched(cfg, w, events);
    hide Trace;
    forall j | 0 <= j < |tr| && Accepted(tr[j], Capture)
      ensures exists i :: GrantOf(tr, i, j) && Honoured(cfg, tr, i, j)
    {
      var i := WatchedCapture(cfg, tr, j);
    }
  }

  lemma {:induction false} GrantStays(cfg: Config, tr: seq<Obs>, i: nat, k: nat)
    requires Watched(cfg, tr) && GrantOf(tr, i, k)
    ensures Before(cfg, tr, k).grant == Some(tr[i].grant)
    decreases k
  {
    Onwards(cfg, tr, k - 1);
    if i < k - 1 {
      GrantStays(cfg, tr, i, k - 1);
    }
  }

  // ---------------------------------------------------------------- cooldown

  predicate NoLoss(tr: seq<Obs>, i: int, j: int) {
    forall k :: 0 <= i <= k < j <= |tr| ==> tr[k] != Reset(true)
  }

  lemma {:induction false} LastIsRecent(cfg: Config, tr: seq<Obs>, i: nat, j: nat)
    requires Watched(cfg, tr) && i < j <= |tr|
    requires Accepted(tr[i], Capture) && NoLoss(tr, i, j)
    ensures Before(cfg, tr, j).last.Some? && tr[i].order.at <= Before(cfg, tr, j).last.value
    decreases j
  {
    Onwards(cfg, tr, j - 1);
    if i < j - 1 {
      LastIsRecent(cfg, tr, i, j - 1);
    }
  }

  lemma WatchedSpacing(cfg: Config, tr: seq<Obs>, i: nat, j: nat)
    requires Watched(cfg, tr) && i < j < |tr| && NoLoss(tr, i, j)
    requires Accepted(tr[i], Capture) && Sends(tr[j], Capture)
    ensures tr[i].order.at + cfg.cooldownMs <= tr[j].order.at
  {
    LastIsRecent(cfg, tr, i, j);
    Onwards(cfg, tr, j);
  }

  /** Without a lost camera, a lost network or a stop in between, captures keep the cooldown. */
  predicate Spaced(cfg: Config, tr: seq<Obs>) {
    forall i, j :: 0 <= i < j < |tr| && Accepted(tr[i], Capture) && Sends(tr[j], Capture) && NoLoss(tr, i, j) ==>
      tr[i].order.at + cfg.cooldownMs <= tr[j].order.at
  }

  lemma CapturesAreSpaced(cfg: Config, w: World, events: seq<Event>)
    ensures Spaced(cfg, Trace(cfg, w, events))
  {
    var tr := Trace(cfg, w, events);
    RunIsWatched(cfg, w, events);
    hide Trace;
    forall i, j | 0 <= i < j < |tr| && Accepted(tr[i], Capture) && Sends(tr[j], Capture) && NoLoss(tr, i, j)
      ensures tr[i].order.at + cfg.cooldownMs <= tr[j].order.at
    {
      WatchedSpacing(cfg, tr, i, j);
    }
  }

  function CapturesIn(tr: seq<Obs>, i: nat, j: nat): nat
    requires i <= j <= |tr|
    decreases j
  {
    if i == j then 0 else CapturesIn(tr, i, j - 1) + if Accepted(tr[j - 1], Capture) then 1 else 0
  }

  /** `further` cooldowns in a row. */
  function Cooldowns(cfg: Config, further: nat): nat {
    if further == 0 then 0 else Cooldowns(cfg, further - 1) + cfg.cooldownMs
  }

  /** The stretch from the capture at `i` to the capture at `j` lasts a cooldown per further capture. */
  predicate OnePerCooldown(cfg: Config, tr: seq<Obs>, i: nat, j: nat) {
    && i <= j < |tr| && tr[i].Sent? && tr[j].Sent?
    && 1 <= CapturesIn(tr, i, j + 1)
    && Cooldowns(cfg, CapturesIn(tr, i, j + 1) - 1) <= tr[j].order.at - tr[i].order.at
  }

  lemma {:induction false} WatchedRate(cfg: Config, tr: seq<Obs>, i: nat, j: nat)
    requires Watched(cfg, tr) && i <= j < |tr| && NoLoss(tr, i, j)
    requires Accepted(tr[i], Capture) && Accepted(tr[j], Capture)
    ensures OnePerCooldown(cfg, tr, i, j)
    decreases j
  {
    if i == j {
      assert CapturesIn(tr, i, j) == 0;
    } else {
      var k := PreviousCapture(tr, i, j);
      WatchedSpacing(cfg, tr, k, j);
      WatchedRate(cfg, tr, i, k);
      assert CapturesIn(tr, i, j + 1) == CapturesIn(tr, i, k + 1) + 1;
    }
  }

  lemma {:induction false} CooldownsMultiply(cfg: Config, further: nat)
    ensures Cooldowns(cfg, further) == further * cfg.cooldownMs
  {
    if 0 < further {
      CooldownsMultiply(cfg, further - 1);
    }
  }

  lemma {:induction false} PreviousCapture(tr: seq<Obs>, i: nat, j: nat) returns (k: nat)
    requires i < j <= |tr| && Accepted(tr[i], Capture)
    ensures i <= k < j && Accepted(tr[k], Capture)
    ensures CapturesIn(tr, i, j) == CapturesIn(tr, i, k + 1)
    decreases j
  {
    k := j - 1;
    if !Accepted(tr[k], Capture) {
      k := PreviousCapture(tr, i, j - 1);
    }
  }

  /** So at most 1 + T / cooldownMs captures happen in T milliseconds. */
  predicate RateBounded(cfg: Config, tr: seq<Obs>) {
    forall i, j :: 0 <= i <= j < |tr| && Accepted(tr[i], Capture) && Accepted(tr[j], Capture) && NoLoss(tr, i, j) ==>
      (CapturesIn(tr, i, j + 1) - 1) * cfg.cooldownMs <= tr[j].order.at - tr[i].order.at
  }

  lemma CaptureRate(cfg: Config, w: World, events: seq<Event>)
    ensures RateBounded(cfg, Trace(cfg, w, events))
  {
    var tr := Trace(cfg, w, events);
    RunIsWatched(cfg, w, events);
    hide Trace;
    forall i, j | 0 <= i <= j < |tr| && Accepted(tr[i], Capture) && Accepted(tr[j], Capture) && NoLoss(tr, i, j)
      ensures (CapturesIn(tr, i, j + 1) - 1) * cfg.cooldownMs <= tr[j].order.at - tr[i].order.at
    {
      WatchedRate(cfg, tr, i, j);
      CooldownsMultiply(cfg, CapturesIn(tr, i, j + 1) - 1);
    }
  }
}
