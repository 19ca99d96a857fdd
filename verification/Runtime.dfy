/** The native runtime as it runs: the limiters, the deduplicator and the state machine behind one entry
    point, proved to answer as `Control.Respond` says. */
module Runtime {
  import opened Types
  import opened Deduplication
  import opened Bodies
  import opened Control
  import Http
  import M = Machine
  import RateLimiting
  import S = StateMachine

  class NativeRuntime {
    const setup: Setup
    const env: S.Environment
    const machine: S.RemoteStateMachine
    const deduplicator: RequestDeduplicator
    const mutationLimiter: RateLimiting.RateLimiter
    const statusLimiter: RateLimiting.RateLimiter
    var started: bool
    var pin: string
    var preview: string

    ghost function Parts(): set<object> {
      {env, machine, deduplicator, mutationLimiter, statusLimiter}
    }

    ghost predicate Valid()
      reads this, Parts()
    {
      && setup.Valid() && this !in Parts()
      && machine.env == env && machine.config == setup.cfg && machine.Valid()
      && deduplicator.memory == setup.memory
      && mutationLimiter != statusLimiter
      && mutationLimiter.limits == setup.mutations && statusLimiter.limits == setup.statuses
    }

    ghost function Abs(): Control
      reads this, Parts(), machine.env
    {
      Control(machine.Abs(), started, pin, preview,
              deduplicator.entries, mutationLimiter.buckets, statusLimiter.buckets)
    }

    constructor (setup: Setup, world: World)
      requires setup.Valid()
      ensures Valid() && Abs() == FIRST && env.world == world && this.setup == setup
      ensures fresh(Parts())
    {
      var e := new S.Environment(world);
      var m := new S.RemoteStateMachine(setup.cfg, e);
      var d := new RequestDeduplicator(setup.memory);
      var a := new RateLimiting.RateLimiter(setup.mutations);
      var b := new RateLimiting.RateLimiter(setup.statuses);
      this.setup, env, machine, deduplicator := setup, e, m, d;
      mutationLimiter, statusLimiter := a, b;
      started, pin, preview := false, "", "";
    }

    /** Differences are gathered over the lengths and the first six characters. `x ^ y` is zero exactly
        when x equals y, and the gathered bits stay zero exactly when every one is. */
    method Authenticate(candidate: string) returns (ok: bool)
      ensures ok <==> Authentic(pin, candidate)
    {
      var different := |candidate| != |pin|;
      for i := 0 to PIN_LENGTH
        invariant different <==> |candidate| != |pin| || exists k :: 0 <= k < i && k < |pin| && candidate[k] != pin[k]
      {
        var a := if i < |candidate| then candidate[i] else '\0';
        var b := if i < |pin| then pin[i] else '\0';
        different := different || a != b;
      }
      return !different;
    }

    method StartUp(newPin: string, serverStarts: bool) returns (ok: bool)
      requires Valid()
      modifies this, Parts()
      ensures Valid() && Abs() == Open(env.world, old(Abs()), newPin, serverStarts)
      ensures ok == (old(started) || serverStarts)
    {
      if started {
        return true;
      }
      pin, preview := newPin, "";
      deduplicator.Clear();
      mutationLimiter.Clear();
      statusLimiter.Clear();
      machine.Start();
      if !serverStarts {
        machine.Stop();
        pin := "";
        return false;
      }
      started := true;
      return true;
    }

    method ShutDown()
      requires Valid()
      modifies this, Parts()
      ensures Valid() && Abs() == Close(env.world, old(Abs()))
    {
      if !started {
        return;
      }
      started := false;
      machine.Stop();
      pin, preview := "", "";
    }

    method OnServerTick()
      requires Valid()
      modifies this, Parts()
      ensures Valid() && Abs() == Step(setup, env.world, old(Abs()), ServerTick)
    {
      if started {
        machine.Tick();
      }
    }

    /** The branch of `HandleRequest` that decides about a capture. */
    method HandleCapture(body: string, now: int) returns (reply: Reply)
      requires Valid()
      modifies this, Parts()
      ensures Valid()
      ensures (Abs(), reply) == AnswerPost(setup, env.world, old(Abs()), Endpoint.Capture, body, now)
    {
      hide M.Request, M.NameOf, Prune, Lookup, ParseCapture, Push;
      var capture := ParseCaptureJson(body);
      if capture.None? {
        return Problem(400, InvalidCapture);
      }
      var c := capture.value;
      var found := deduplicator.Find(c.requestId, now);
      if found.Some? {
        return CaptureReply(found.value.status, found.value.body);
      }
      var status, answer := 202, BadDelay;
      if c.delayMs < 0 || c.delayMs > setup.cfg.maxDelayMs {
        status := 400;
      } else {
        var ok, error := machine.RequestCapture(c.requestId, c.delayMs, c.autofocus);
        machine.StateIsNamed();
        if !ok {
          status, answer := 409, NotAccepted(c.requestId, error);
        } else {
          answer := Taken(c.requestId, machine.state);
        }
      }
      deduplicator.Remember(c.requestId, status, answer, now);
      return CaptureReply(status, answer);
    }

    method HandleCancel(body: string) returns (reply: Reply)
      requires Valid()
      modifies this, Parts()
      ensures Valid() && (Abs(), reply) == AnswerCancel(env.world, old(Abs()), body)
    {
      if body != "{}" && body != "" {
        return Problem(400, InvalidCancel);
      }
      var ok, error := machine.CancelCountdown();
      if !ok {
        return Problem(409, Refused(error));
      }
      return Cancelled;
    }

    method HandleFocus(body: string) returns (reply: Reply)
      requires Valid()
      modifies this, Parts()
      ensures Valid() && (Abs(), reply) == AnswerFocus(env.world, old(Abs()), body)
    {
      var pressed := ParseFocusJson(body);
      if pressed.None? {
        return Problem(400, InvalidFocus);
      }
      var ok, error := machine.SetFocus(pressed.value);
      if !ok {
        return Problem(409, Refused(error));
      }
      return FocusSet;
    }

    method HandleGet(request: Http.HttpRequest, peer: string, now: int) returns (reply: Reply)
      requires Valid()
      modifies this, Parts()
      ensures Valid() && (Abs(), reply) == ServeGet(setup, env.world, old(Abs()), request, peer, now)
    {
      var allowed := statusLimiter.Allow(peer, now);
      if !allowed {
        return Problem(429, RateLimited);
      }
      match EndpointOf(request.verb, request.path)
      case Status =>
        machine.StateIsNamed();
        var state, camera, wifi := machine.state, machine.cameraReady, machine.wifiReady;
        var countdown := machine.CountdownRemainingMs();
        return StatusReport(state, camera, wifi, countdown, machine.lastRequestId, machine.lastError);
      case Preview =>
        var ok := Authenticate(request.pin);
        return if !ok then Problem(401, PinRequired)
               else if preview == "" then Problem(404, NoPreview) else Jpeg(preview);
      case Unknown => return Problem(404, NotFound);
      case asset => return Asset(asset);
    }

    method HandlePost(request: Http.HttpRequest, peer: string, now: int) returns (reply: Reply)
      requires Valid()
      modifies this, Parts()
      ensures Valid() && (Abs(), reply) == ServePost(setup, env.world, old(Abs()), request, peer, now)
    {
      var allowed := mutationLimiter.Allow(peer, now);
      if !allowed {
        return Problem(429, RateLimited);
      }
      var ok := Authenticate(request.pin);
      if !ok {
        return Problem(401, PinRequired);
      }
      if !IsJson(request.contentType) {
        return Problem(415, JsonRequired);
      }
      match EndpointOf(request.verb, request.path)
      case Capture => reply := HandleCapture(request.body, now);
      case Cancel => reply := HandleCancel(request.body);
      case Focus => reply := HandleFocus(request.body);
      case _ => reply := Problem(404, NotFound);
    }

    method HandleRequest(request: Http.HttpRequest, peer: string) returns (reply: Reply)
      requires Valid()
      modifies this, Parts()
      ensures Valid() && (Abs(), reply) == Respond(setup, env.world, old(Abs()), request, peer)
    {
      var now := env.NowMs();
      if request.verb == "GET" {
        reply := HandleGet(request, peer, now);
      } else if request.verb != "POST" {
        reply := Problem(405, NotAllowed);
      } else {
        reply := HandlePost(request, peer, now);
      }
    }
  }
}
