/** Whole runs of the runtime: they are runs of the state machine, and a capture request is carried out
    at most once however often it is sent. */
module Sessions {
  import opened Types
  import opened Deduplication
  import opened Bodies
  import opened Control
  import Http
  import M = Machine
  import RateLimiting
  import Reach

  // ---------------------------------------------------------------- a run of the runtime is a run of the machine

  /** What the machine sees of a POST that passed its checks. */
  function PostEvents(s: Setup, r: Control, endpoint: Endpoint, body: string, now: int): seq<M.Event> {
    match endpoint
    case Capture =>
      (match ParseCapture(body)
       case None => []
       case Some(c) =>
         if Lookup(Prune(r.entries, now), c.requestId).Some? || c.delayMs < 0 || s.cfg.maxDelayMs < c.delayMs then []
         else [M.RequestCall(c.requestId, c.delayMs, c.autofocus)])
    case Cancel => if body != "{}" && body != "" then [] else [M.CancelCall]
    case Focus => if ParseFocus(body).None? then [] else [M.FocusCall(ParseFocus(body).value)]
    case _ => []
  }

  function RequestEvents(s: Setup, r: Control, request: Http.HttpRequest, peer: string, now: int): seq<M.Event>
    requires s.Valid()
  {
    if request.verb == "GET" then
      if RateLimiting.AllowStep(s.statuses, r.statuses, peer, now).1
         && EndpointOf(request.verb, request.path).Status? && M.Looked(r.machine) != r.machine then [M.ClockRead]
      else []
    else if request.verb == "POST" && Check(s, r, request, peer, now).1.None? then
      PostEvents(s, r, EndpointOf(request.verb, request.path), request.body, now)
    else []
  }

  function CallEvents(s: Setup, w: World, r: Control, call: Call): seq<M.Event>
    requires s.Valid()
  {
    match call
    case StartUp(_, serverStarts) =>
      if r.started then [] else if serverStarts then [M.StartCall] else [M.StartCall, M.StopCall]
    case ShutDown => if r.started then [M.StopCall] else []
    case ServerTick => if r.started then [M.TickCall] else []
    case Request(request, peer) =>
      [M.ClockRead] + RequestEvents(s, Clocked(r), request, peer, M.Now(w, r.machine))
    case SetPreview(_) => []
    case _ => [Direct(call).value]
  }

  /** The machine after some events. */
  function Events(cfg: Config, w: World, m: M.Machine, events: seq<M.Event>): M.Machine
    decreases |events|
  {
    if events == [] then m else Events(cfg, w, M.Step(cfg, w, m, events[0]).0, events[1..])
  }

  lemma {:induction false} RunThenEvents(cfg: Config, w: World, earlier: seq<M.Event>, later: seq<M.Event>)
    ensures M.Run(cfg, w, earlier + later) == Events(cfg, w, M.Run(cfg, w, earlier), later)
    decreases |later|
  {
    if later == [] {
      assert earlier + later == earlier;
    } else {
      var longer := earlier + [later[0]];
      assert longer[..|longer| - 1] == earlier;
      assert earlier + later == longer + later[1..];
      RunThenEvents(cfg, w, longer, later[1..]);
    }
  }

  lemma NoEvent(cfg: Config, w: World, m: M.Machine)
    ensures Events(cfg, w, m, []) == m
  {
  }

  lemma OneEvent(cfg: Config, w: World, m: M.Machine, e: M.Event)
    ensures Events(cfg, w, m, [e]) == M.Step(cfg, w, m, e).0
  {
    assert [e][1..] == [];
  }

  lemma FirstEvent(cfg: Config, w: World, m: M.Machine, e: M.Event, more: seq<M.Event>)
    ensures Events(cfg, w, m, [e] + more) == Events(cfg, w, M.Step(cfg, w, m, e).0, more)
  {
    assert ([e] + more)[1..] == more;
  }

  lemma PostRunsEvents(s: Setup, w: World, r: Control, endpoint: Endpoint, body: string, now: int)
    ensures AnswerPost(s, w, r, endpoint, body, now).0.machine ==
            Events(s.cfg, w, r.machine, PostEvents(s, r, endpoint, body, now))
  {
    hide M.Request, M.SetFocus, M.CancelCountdown, ParseCapture, ParseFocus, Prune, Lookup, Push;
    var es := PostEvents(s, r, endpoint, body, now);
    if es != [] {
      OneEvent(s.cfg, w, r.machine, es[0]);
    }
  }

  lemma RequestRunsEvents(s: Setup, w: World, r: Control, request: Http.HttpRequest, peer: string, now: int)
    requires s.Valid()
    ensures var t := if request.verb == "GET" then ServeGet(s, w, r, request, peer, now).0
                     else if request.verb == "POST" then ServePost(s, w, r, request, peer, now).0
                     else r;
            t.machine == Events(s.cfg, w, r.machine, RequestEvents(s, r, request, peer, now))
  {
    hide RateLimiting.AllowStep, AnswerPost, PostEvents, EndpointOf, M.CountdownRemaining;
    OneEvent(s.cfg, w, r.machine, M.ClockRead);
    var checked := Check(s, r, request, peer, now).0;
    PostRunsEvents(s, w, checked, EndpointOf(request.verb, request.path), request.body, now);
    SamePostEvents(s, r, checked, EndpointOf(request.verb, request.path), request.body, now);
  }

  lemma SamePostEvents(s: Setup, r: Control, t: Control, endpoint: Endpoint, body: string, now: int)
    requires r.entries == t.entries
    ensures PostEvents(s, r, endpoint, body, now) == PostEvents(s, t, endpoint, body, now)
  {
  }

  lemma ServedRunsEvents(s: Setup, w: World, r: Control, request: Http.HttpRequest, peer: string)
    requires s.Valid()
    ensures Respond(s, w, r, request, peer).0.machine ==
            Events(s.cfg, w, r.machine, CallEvents(s, w, r, Request(request, peer)))
  {
    hide ServeGet, ServePost, RequestEvents, Events;
    RequestRunsEvents(s, w, Clocked(r), request, peer, M.Now(w, r.machine));
    FirstEvent(s.cfg, w, r.machine, M.ClockRead, RequestEvents(s, Clocked(r), request, peer, M.Now(w, r.machine)));
  }

  lemma StartUpRunsEvents(s: Setup, w: World, r: Control, pin: string, serverStarts: bool)
    requires s.Valid()
    ensures Open(w, r, pin, serverStarts).machine ==
            Events(s.cfg, w, r.machine, CallEvents(s, w, r, StartUp(pin, serverStarts)))
  {
    hide RequestEvents, M.Stop, M.Start;
    FirstEvent(s.cfg, w, r.machine, M.StartCall, [M.StopCall]);
    OneEvent(s.cfg, w, r.machine, M.StartCall);
    OneEvent(s.cfg, w, M.Start(r.machine), M.StopCall);
  }

  lemma CallRunsEvents(s: Setup, w: World, r: Control, call: Call)
    requires s.Valid()
    ensures Step(s, w, r, call).machine == Events(s.cfg, w, r.machine, CallEvents(s, w, r, call))
  {
    hide Respond, Open, Events, RequestEvents, M.Tick;
    assert Events(s.cfg, w, r.machine, []) == r.machine by {
      NoEvent(s.cfg, w, r.machine);
    }
    match call
    case Request(request, peer) => ServedRunsEvents(s, w, r, request, peer);
    case StartUp(pin, serverStarts) => StartUpRunsEvents(s, w, r, pin, serverStarts);
    case ShutDown => OneEvent(s.cfg, w, r.machine, M.StopCall);
    case ServerTick => OneEvent(s.cfg, w, r.machine, M.TickCall);
    case SetPreview(_) =>
    case _ =>
      hide M.Step;
      OneEvent(s.cfg, w, r.machine, Direct(call).value);
  }

  /** Everything the machine saw in a run of the runtime. */
  function AllEvents(s: Setup, w: World, calls: seq<Call>): seq<M.Event>
    requires s.Valid()
  {
    if calls == [] then []
    else
      var before := calls[..|calls| - 1];
      AllEvents(s, w, before) + CallEvents(s, w, After(s, w, before), calls[|calls| - 1])
  }

  /** So what holds of every run of the machine holds behind every run of the runtime. */
  lemma {:induction false} RunsTheMachine(s: Setup, w: World, calls: seq<Call>)
    requires s.Valid()
    ensures After(s, w, calls).machine == M.Run(s.cfg, w, AllEvents(s, w, calls))
  {
    hide CallEvents, Step;
    if calls != [] {
      var before, call := calls[..|calls| - 1], calls[|calls| - 1];
      var r := After(s, w, before);
      RunsTheMachine(s, w, before);
      CallRunsEvents(s, w, r, call);
      RunThenEvents(s.cfg, w, AllEvents(s, w, before), CallEvents(s, w, r, call));
    }
  }

  // ---------------------------------------------------------------- what is remembered

  /** The capture request that a call puts to the deduplicator, if it gets that far. */
  function Asks(s: Setup, w: World, r: Control, call: Call): Option<CaptureRequest>
    requires s.Valid()
  {
    match call
    case Request(request, peer) =>
      if request.verb == "POST" && EndpointOf(request.verb, request.path).Capture?
         && Check(s, Clocked(r), request, peer, M.Now(w, r.machine)).1.None? then ParseCapture(request.body)
      else None
    case _ => None
  }

  function ReplyTo(s: Setup, w: World, r: Control, call: Call): Option<Reply>
    requires s.Valid()
  {
    match call
    case Request(request, peer) => Some(Respond(s, w, r, request, peer).1)
    case _ => None
  }

  /** The question such a call puts: its id, and what would be answered anew. */
  function QuestionOf(s: Setup, w: World, r: Control, c: CaptureRequest): Question {
    var decided := Decide(s.cfg, w, Clocked(r).machine, c);
    Question(c.requestId, decided.1, decided.2, M.Now(w, r.machine))
  }

  predicate Restarts(r: Control, call: Call) {
    call.StartUp? && !r.started
  }

  /** What one call does to the history. */
  function NextHistory(s: Setup, w: World, r: Control, call: Call, history: seq<Entry>): seq<Entry>
    requires s.Valid()
  {
    if Restarts(r, call) then []
    else
      match Asks(s, w, r, call)
      case None => history
      case Some(c) => Recorded(s.memory, history, r.entries, QuestionOf(s, w, r, c))
  }

  function NextAsked(s: Setup, w: World, r: Control, call: Call, last: int): int
    requires s.Valid()
  {
    if Asks(s, w, r, call).Some? then M.Now(w, r.machine) else last
  }

  /** The answers remembered since the last start, in order. */
  function History(s: Setup, w: World, calls: seq<Call>): seq<Entry>
    requires s.Valid()
  {
    if calls == [] then []
    else
      var before := calls[..|calls| - 1];
      NextHistory(s, w, After(s, w, before), calls[|calls| - 1], History(s, w, before))
  }

  /** When the deduplicator was last asked. */
  function LastAsked(s: Setup, w: World, calls: seq<Call>): int
    requires s.Valid()
  {
    if calls == [] then 0
    else
      var before := calls[..|calls| - 1];
      NextAsked(s, w, After(s, w, before), calls[|calls| - 1], LastAsked(s, w, before))
  }

  /** A call that asks is answered from memory or decided anew. */
  lemma AskingStep(s: Setup, w: World, r: Control, call: Call, c: CaptureRequest)
    requires s.Valid() && Asks(s, w, r, call) == Some(c)
    ensures var q := QuestionOf(s, w, r, c);
            Step(s, w, r, call).entries == Once(s.memory, r.entries, q.id, q.status, q.body, q.at)
    ensures ReplyTo(s, w, r, call) == Some(
              match Lookup(Prune(r.entries, M.Now(w, r.machine)), c.requestId)
              case Some(e) => CaptureReply(e.status, e.body)
              case None => CaptureReply(QuestionOf(s, w, r, c).status, QuestionOf(s, w, r, c).body))
    ensures Lookup(Prune(r.entries, M.Now(w, r.machine)), c.requestId).Some? ==>
              Step(s, w, r, call).machine == Clocked(r).machine
  {
    hide RateLimiting.AllowStep, ParseCapture, Decide, Prune, Lookup, EndpointOf;
  }

  lemma OtherStep(s: Setup, w: World, r: Control, call: Call)
    requires s.Valid() && Asks(s, w, r, call) == None && !Restarts(r, call)
    ensures Step(s, w, r, call).entries == r.entries
  {
    hide RateLimiting.AllowStep, ParseCapture, AnswerCapture, EndpointOf, ParseFocus, M.Step;
  }

  lemma ClockAdvances(cfg: Config, w: World, m: M.Machine, e: M.Event)
    ensures m.instant <= M.Step(cfg, w, m, e).0.instant
  {
    hide M.Tick;
    match e
    case RequestCall(id, delay, autofocus) => TickAdvances(cfg, w, M.Scheduled(cfg, w, m, id, delay, autofocus));
    case ShutterCall(pressed) =>
      if m.phase.Capturing? {
        TickAdvances(cfg, w, M.LetGo(w, m));
      }
    case TickCall => TickAdvances(cfg, w, m);
    case _ =>
  }

  lemma TickAdvances(cfg: Config, w: World, m: M.Machine)
    ensures m.instant <= M.Tick(cfg, w, m).instant
  {
  }

  lemma {:induction false} EventsAdvance(cfg: Config, w: World, m: M.Machine, events: seq<M.Event>)
    ensures m.instant <= Events(cfg, w, m, events).instant
    decreases |events|
  {
    hide M.Step;
    if events != [] {
      ClockAdvances(cfg, w, m, events[0]);
      EventsAdvance(cfg, w, M.Step(cfg, w, m, events[0]).0, events[1..]);
    }
  }

  lemma TimePasses(s: Setup, w: World, r: Control, call: Call)
    requires s.Valid()
    ensures M.Now(w, r.machine) <= M.Now(w, Step(s, w, r, call).machine)
  {
    hide Step, CallEvents, Events;
    CallRunsEvents(s, w, r, call);
    EventsAdvance(s.cfg, w, r.machine, CallEvents(s, w, r, call));
    w.Monotone(r.machine.instant, Step(s, w, r, call).machine.instant);
  }

  /** The list the runtime keeps is the window on its history. */
  ghost predicate Tracks(s: Setup, w: World, r: Control, history: seq<Entry>, last: int) {
    && Window(s.memory, r.entries, history, last)
    && Ordered(r.entries) && DistinctIds(r.entries)
    && last <= M.Now(w, r.machine)
  }

  lemma StepTracks(s: Setup, w: World, r: Control, call: Call, history: seq<Entry>, last: int)
    requires s.Valid() && Tracks(s, w, r, history, last)
    ensures Tracks(s, w, Step(s, w, r, call), NextHistory(s, w, r, call, history), NextAsked(s, w, r, call, last))
  {
    TimePasses(s, w, r, call);
    hide Asks, Window, Ordered, DistinctIds, Once, Recorded, QuestionOf;
    if Restarts(r, call) {
      assert Step(s, w, r, call).entries == [];
      EmptyTracks(s.memory, last);
      RestartsAskNothing(s, w, r, call);
    } else {
      hide Step;
      match Asks(s, w, r, call)
      case None => OtherStep(s, w, r, call);
      case Some(c) =>
        AskingStep(s, w, r, call, c);
        QuestionIsNow(s, w, r, c);
        OnceKeepsWindow(s.memory, r.entries, history, last, QuestionOf(s, w, r, c), Step(s, w, r, call).entries);
    }
  }

  lemma EmptyTracks(d: Memory, last: int)
    ensures Window(d, [], [], last) && Ordered([]) && DistinctIds([])
  {
  }

  lemma RestartsAskNothing(s: Setup, w: World, r: Control, call: Call)
    requires s.Valid() && Restarts(r, call)
    ensures Asks(s, w, r, call) == None
  {
  }

  lemma QuestionIsNow(s: Setup, w: World, r: Control, c: CaptureRequest)
    ensures QuestionOf(s, w, r, c).at == M.Now(w, r.machine)
    ensures QuestionOf(s, w, r, c).id == c.requestId
  {
  }

  lemma {:induction false} RunTracks(s: Setup, w: World, calls: seq<Call>)
    requires s.Valid()
    ensures Tracks(s, w, After(s, w, calls), History(s, w, calls), LastAsked(s, w, calls))
  {
    hide Step, NextHistory, NextAsked;
    if calls == [] {
      EmptyTracks(s.memory, 0);
    } else {
      var before := calls[..|calls| - 1];
      RunTracks(s, w, before);
      StepTracks(s, w, After(s, w, before), calls[|calls| - 1], History(s, w, before), LastAsked(s, w, before));
    }
  }

  // ---------------------------------------------------------------- at most once

  /** Was this call's capture decided anew, and so remembered? */
  predicate Decides(s: Setup, w: World, r: Control, call: Call)
    requires s.Valid()
  {
    && Asks(s, w, r, call).Some?
    && Lookup(Prune(r.entries, M.Now(w, r.machine)), Asks(s, w, r, call).value.requestId).None?
  }

  /** No restart, and so nothing forgotten, among the calls of `later` that follow `earlier`. */
  predicate Unbroken(s: Setup, w: World, earlier: seq<Call>, later: seq<Call>)
    requires s.Valid()
    decreases |later|
  {
    later == [] ||
    (var before := later[..|later| - 1];
     Unbroken(s, w, earlier, before) && !Restarts(After(s, w, earlier + before), later[|later| - 1]))
  }

  /** All answers from the `n`-th on expire no earlier than `t`. */
  predicate LastUntil(history: seq<Entry>, n: nat, t: int) {
    forall k :: n <= k < |history| ==> t <= history[k].expiresMs
  }

  lemma HistoryGrows(s: Setup, w: World, r: Control, call: Call, history: seq<Entry>, t: int, n: nat)
    requires s.Valid() && !Restarts(r, call) && n <= |history|
    requires LastUntil(history, n, t) && t <= M.Now(w, r.machine) + s.memory.retentionMs
    ensures history <= NextHistory(s, w, r, call, history)
    ensures LastUntil(NextHistory(s, w, r, call, history), n, t)
  {
    hide Asks, Prune, Lookup, Decide;
  }

  /** Later answers are added behind the earlier ones and expire later. */
  lemma {:induction false} HistoryOnlyGrows(s: Setup, w: World, earlier: seq<Call>, later: seq<Call>, t: int, n: nat)
    requires s.Valid() && Unbroken(s, w, earlier, later) && n <= |History(s, w, earlier)|
    requires LastUntil(History(s, w, earlier), n, t)
    requires t <= M.Now(w, After(s, w, earlier).machine) + s.memory.retentionMs
    ensures History(s, w, earlier) <= History(s, w, earlier + later)
    ensures LastUntil(History(s, w, earlier + later), n, t)
    ensures M.Now(w, After(s, w, earlier).machine) <= M.Now(w, After(s, w, earlier + later).machine)
    decreases |later|
  {
    hide Step, NextHistory, LastUntil, Restarts, M.Now;
    if later == [] {
      assert earlier + later == earlier;
    } else {
      var before, call := later[..|later| - 1], later[|later| - 1];
      var all := earlier + later;
      assert all[..|all| - 1] == earlier + before && all[|all| - 1] == call;
      HistoryOnlyGrows(s, w, earlier, before, t, n);
      var r := After(s, w, earlier + before);
      HistoryGrows(s, w, r, call, History(s, w, earlier + before), t, n);
      TimePasses(s, w, r, call);
    }
  }

  /** The answer with index `n` of the history is given again while it lasts and has fewer than `maximum`
      answers behind it; the machine is left alone. */
  lemma Recalls(s: Setup, w: World, r: Control, history: seq<Entry>, last: int, n: nat, call: Call, c: CaptureRequest)
    requires s.Valid() && Tracks(s, w, r, history, last)
    requires n < |history| <= n + s.memory.maximum && LastUntil(history, n, M.Now(w, r.machine) + 1)
    requires Asks(s, w, r, call) == Some(c) && c.requestId == history[n].requestId
    ensures ReplyTo(s, w, r, call) == Some(CaptureReply(history[n].status, history[n].body))
    ensures Step(s, w, r, call).machine == Clocked(r).machine
  {
    hide Step, Asks, Window, Ordered, DistinctIds, Prune, Lookup, ReplyTo, Once, QuestionOf;
    AskingStep(s, w, r, call, c);
    assert forall k :: n <= k < |history| ==> M.Now(w, r.machine) < history[k].expiresMs;
    StillFound(s.memory, r.entries, history, last, M.Now(w, r.machine), n);
  }

  /** `first` decides about a capture; after `between`, with no restart, fewer than `maximum` other
      decisions and less than the retention time since, `second` asks for the same id. */
  ghost predicate Resent(s: Setup, w: World, before: seq<Call>, first: Call, between: seq<Call>, second: Call)
    requires s.Valid()
  {
    var start := before + [first];
    var r, t := After(s, w, before), After(s, w, start + between);
    && Decides(s, w, r, first) && Unbroken(s, w, start, between)
    && |History(s, w, start + between)| < |History(s, w, start)| + s.memory.maximum
    && M.Now(w, t.machine) < M.Now(w, r.machine) + s.memory.retentionMs
    && Asks(s, w, t, second).Some?
    && Asks(s, w, t, second).value.requestId == Asks(s, w, r, first).value.requestId
  }

  /** A capture that was decided is not decided again: sent again, it gets the same reply, and the machine
      only sees its clock being read. */
  lemma AtMostOnce(s: Setup, w: World, before: seq<Call>, first: Call, between: seq<Call>, second: Call)
    requires s.Valid()
    ensures Resent(s, w, before, first, between, second) ==>
              var t := After(s, w, before + [first] + between);
              && ReplyTo(s, w, t, second) == ReplyTo(s, w, After(s, w, before), first)
              && Step(s, w, t, second).machine == Clocked(t).machine
  {
    if Resent(s, w, before, first, between, second) {
      var r, start := After(s, w, before), before + [first];
      var c, n := Asks(s, w, r, first).value, |History(s, w, before)|;
      OneCallMore(s, w, before, first);
      FirstRecord(s, w, r, History(s, w, before), first, c);
      TimePasses(s, w, r, first);
      hide *;
      LastsUntilItExpires(History(s, w, start), n);
      HistoryOnlyGrows(s, w, start, between, History(s, w, start)[n].expiresMs, n);
      var calls := start + between;
      assert History(s, w, calls)[n] == History(s, w, start)[n];
      RunTracks(s, w, calls);
      StillLasts(History(s, w, calls), n, History(s, w, start)[n].expiresMs, M.Now(w, After(s, w, calls).machine) + 1);
      Recalls(s, w, After(s, w, calls), History(s, w, calls), LastAsked(s, w, calls), n, second,
              Asks(s, w, After(s, w, calls), second).value);
    }
  }

  lemma OneCallMore(s: Setup, w: World, before: seq<Call>, call: Call)
    requires s.Valid()
    ensures After(s, w, before + [call]) == Step(s, w, After(s, w, before), call)
    ensures History(s, w, before + [call]) == NextHistory(s, w, After(s, w, before), call, History(s, w, before))
  {
    hide Step, NextHistory;
    var calls := before + [call];
    assert calls[..|calls| - 1] == before;
  }

  lemma LastsUntilItExpires(history: seq<Entry>, n: nat)
    requires |history| == n + 1
    ensures LastUntil(history, n, history[n].expiresMs)
  {
  }

  lemma StillLasts(history: seq<Entry>, n: nat, t: int, u: int)
    requires LastUntil(history, n, t) && u <= t
    ensures LastUntil(history, n, u)
  {
  }

  /** What is decided is recorded as it is replied. */
  lemma FirstRecord(s: Setup, w: World, r: Control, history: seq<Entry>, first: Call, c: CaptureRequest)
    requires s.Valid() && Decides(s, w, r, first) && Asks(s, w, r, first) == Some(c)
    ensures var h, n := NextHistory(s, w, r, first, history), |history|;
            && |h| == n + 1
            && h[n].requestId == c.requestId && h[n].expiresMs == M.Now(w, r.machine) + s.memory.retentionMs
            && ReplyTo(s, w, r, first) == Some(CaptureReply(h[n].status, h[n].body))
  {
    RestartsAsk(s, w, r, first);
    AskingStep(s, w, r, first, c);
    hide Step, Asks, Decide, Prune, Lookup, ReplyTo, Once;
  }

  lemma RestartsAsk(s: Setup, w: World, r: Control, call: Call)
    requires s.Valid() && Asks(s, w, r, call).Some?
    ensures !Restarts(r, call)
  {
  }

  // ---------------------------------------------------------------- who may take pictures

  /** For the six digits of a PIN the check is equality. */
  lemma PinIsCompared(pin: string, candidate: string)
    requires |pin| <= PIN_LENGTH
    ensures Authentic(pin, candidate) <==> candidate == pin
  {
  }

  /** Does this request do more to the machine than look at the clock? */
  predicate Acts(s: Setup, w: World, r: Control, request: Http.HttpRequest, peer: string)
    requires s.Valid()
  {
    var m := Respond(s, w, r, request, peer).0.machine;
    m.phase != r.machine.phase || m.log != r.machine.log
  }

  lemma ChecksComeFirst(s: Setup, w: World, r: Control, request: Http.HttpRequest, peer: string)
    requires s.Valid() && Acts(s, w, r, request, peer)
    ensures request.verb == "POST"
    ensures RateLimiting.AllowStep(s.mutations, r.mutations, peer, M.Now(w, r.machine)).1
    ensures Authentic(r.pin, request.pin) && IsJson(request.contentType)
  {
    hide AnswerPost, RateLimiting.AllowStep, EndpointOf, Authentic, IsJson;
  }

  /** Every PIN a start is given has its six digits. */
  predicate SixDigits(calls: seq<Call>) {
    forall c :: c in calls && c.StartUp? ==> |c.pin| == PIN_LENGTH
  }

  /** Nobody can act before a start and after a stop: there is no PIN then, but the machine is idle. */
  predicate Guarded(r: Control) {
    if r.started then |r.pin| == PIN_LENGTH else r.pin == "" && !M.Running(r.machine.phase)
  }

  lemma IdleStep(cfg: Config, w: World, m: M.Machine, e: M.Event)
    requires !M.Running(m.phase) && !e.StartCall?
    ensures var t := M.Step(cfg, w, m, e).0;
            && !M.Running(t.phase)
            && (e.RequestCall? || e.CancelCall? || e.FocusCall? || e.ClockRead? ==>
                  t.phase == m.phase && t.log == m.log)
  {
    hide M.BeginCapture;
  }

  lemma IdleAnswer(s: Setup, w: World, r: Control, request: Http.HttpRequest, peer: string, now: int)
    requires s.Valid() && !M.Running(r.machine.phase)
    ensures var t := Events(s.cfg, w, r.machine, RequestEvents(s, r, request, peer, now));
            t.phase == r.machine.phase && t.log == r.machine.log
  {
    var es := RequestEvents(s, r, request, peer, now);
    hide RateLimiting.AllowStep, EndpointOf, Prune, Lookup, ParseFocus, ParseCapture, Check, M.Looked, M.Step;
    NoEvent(s.cfg, w, r.machine);
    if es != [] {
      OneEvent(s.cfg, w, r.machine, es[0]);
      IdleStep(s.cfg, w, r.machine, es[0]);
      assert es == [es[0]];
    }
    hide Events;
  }

  /** While the runtime is not started, no request acts. */
  lemma IdleRespond(s: Setup, w: World, r: Control, request: Http.HttpRequest, peer: string)
    requires s.Valid() && !M.Running(r.machine.phase)
    ensures !Acts(s, w, r, request, peer)
  {
    var now := M.Now(w, r.machine);
    hide Events, RequestEvents, Respond;
    ServedRunsEvents(s, w, r, request, peer);
    FirstEvent(s.cfg, w, r.machine, M.ClockRead, RequestEvents(s, Clocked(r), request, peer, now));
    IdleAnswer(s, w, Clocked(r), request, peer, now);
  }

  lemma RespondKeepsPin(s: Setup, w: World, r: Control, request: Http.HttpRequest, peer: string)
    requires s.Valid()
    ensures var t := Respond(s, w, r, request, peer).0;
            t.started == r.started && t.pin == r.pin
  {
    hide RateLimiting.AllowStep, EndpointOf, ParseFocus, ParseCapture, Decide, Prune, Lookup;
  }

  lemma StepGuarded(s: Setup, w: World, r: Control, call: Call)
    requires s.Valid() && Guarded(r) && (call.StartUp? ==> |call.pin| == PIN_LENGTH)
    ensures Guarded(Step(s, w, r, call))
  {
    hide Respond, Acts, M.Step, M.Tick;
    match call
    case Request(request, peer) =>
      RespondKeepsPin(s, w, r, request, peer);
      if !r.started {
        IdleRespond(s, w, r, request, peer);
        StillIdle(s, w, r, request, peer);
      }
    case StartUp(_, _) =>
    case ShutDown =>
    case ServerTick =>
    case SetPreview(_) =>
    case _ =>
      if !r.started {
        IdleStep(s.cfg, w, r.machine, Direct(call).value);
      }
  }

  lemma StillIdle(s: Setup, w: World, r: Control, request: Http.HttpRequest, peer: string)
    requires s.Valid() && !Acts(s, w, r, request, peer) && !M.Running(r.machine.phase)
    ensures !M.Running(Respond(s, w, r, request, peer).0.machine.phase)
  {
    hide Respond;
  }

  lemma {:induction false} RunGuarded(s: Setup, w: World, calls: seq<Call>)
    requires s.Valid() && SixDigits(calls)
    ensures Guarded(After(s, w, calls))
  {
    if calls != [] {
      var before := calls[..|calls| - 1];
      RunGuarded(s, w, before);
      StepGuarded(s, w, After(s, w, before), calls[|calls| - 1]);
    }
    hide Step, Guarded;
  }

  /** In every run in which each start is given six digits, a request that does more to the machine than
      look at the clock reaches a started runtime, carries exactly its six digits, and passed the rate limit
      and the content type check. */
  lemma OnlyCheckedPostsAct(s: Setup, w: World, calls: seq<Call>, request: Http.HttpRequest, peer: string)
    requires s.Valid() && SixDigits(calls)
    ensures var r := After(s, w, calls);
            Acts(s, w, r, request, peer) ==>
              && r.started && |r.pin| == PIN_LENGTH && request.pin == r.pin
              && request.verb == "POST" && IsJson(request.contentType)
              && RateLimiting.AllowStep(s.mutations, r.mutations, peer, M.Now(w, r.machine)).1
  {
    var r := After(s, w, calls);
    RunGuarded(s, w, calls);
    hide After, Acts, RateLimiting.AllowStep, IsJson;
    if Acts(s, w, r, request, peer) {
      ChecksComeFirst(s, w, r, request, peer);
      if !r.started {
        IdleRespond(s, w, r, request, peer);
      }
      PinIsCompared(r.pin, request.pin);
    }
  }

  /** In every such run the preview is handed out exactly to a GET for it that is within its rate and carries
      the PIN of the moment, which is empty exactly while the runtime is not started. */
  lemma PreviewIsGuarded(s: Setup, w: World, calls: seq<Call>, request: Http.HttpRequest, peer: string)
    requires s.Valid() && SixDigits(calls)
    ensures var r := After(s, w, calls);
            && (r.pin == "" <==> !r.started)
            && (Respond(s, w, r, request, peer).1 == Jpeg(r.preview) <==>
                  && request.verb == "GET" && EndpointOf(request.verb, request.path).Preview?
                  && RateLimiting.AllowStep(s.statuses, r.statuses, peer, M.Now(w, r.machine)).1
                  && request.pin == r.pin && r.preview != "")
            && (Respond(s, w, r, request, peer).1.Jpeg? ==> Respond(s, w, r, request, peer).1 == Jpeg(r.preview))
  {
    var r := After(s, w, calls);
    RunGuarded(s, w, calls);
    PinIsCompared(r.pin, request.pin);
    hide After;
    OnlyGetsShow(s, w, r, request, peer);
  }

  lemma OnlyGetsShow(s: Setup, w: World, r: Control, request: Http.HttpRequest, peer: string)
    requires s.Valid()
    ensures Respond(s, w, r, request, peer).1.Jpeg? <==>
            && request.verb == "GET" && EndpointOf(request.verb, request.path).Preview?
            && RateLimiting.AllowStep(s.statuses, r.statuses, peer, M.Now(w, r.machine)).1
            && Authentic(r.pin, request.pin) && r.preview != ""
    ensures Respond(s, w, r, request, peer).1.Jpeg? ==> Respond(s, w, r, request, peer).1 == Jpeg(r.preview)
  {
    hide RateLimiting.AllowStep, EndpointOf, Authentic, ParseCapture, ParseFocus, Decide, Prune, Lookup,
         M.CountdownRemaining;
  }

  /** A preview that is set while the runtime is not started goes to whoever sends no PIN. */
  lemma UnstartedPreviewExample(w: World)
    ensures Respond(NATIVE_SETUP, w, After(NATIVE_SETUP, w, [SetPreview("x")]),
                    Http.HttpRequest("GET", "/api/v1/preview.jpg", "", "", ""), "phone").1 == Jpeg("x")
  {
    var calls, request := [SetPreview("x")], Http.HttpRequest("GET", "/api/v1/preview.jpg", "", "", "");
    assert calls[..0] == [];
    assert After(NATIVE_SETUP, w, []) == FIRST;
    assert After(NATIVE_SETUP, w, calls) == FIRST.(preview := "x");
    hide After;
    OnlyGetsShow(NATIVE_SETUP, w, FIRST.(preview := "x"), request, "phone");
  }

  /** Did this call allow one picture to be taken? */
  function Grants(s: Setup, w: World, r: Control, call: Call): nat
    requires s.Valid()
  {
    var granted := match call
      case Request(request, _) =>
        (match ReplyTo(s, w, r, call).value
         case CaptureReply(status, _) => Decides(s, w, r, call) && status == 202
         case FocusSet => ParseFocus(request.body) == Some(true)
         case _ => false)
      case FocusKey(pressed) => pressed && M.SetFocus(w, r.machine, true).1
      case ShutterKey(pressed) => pressed && M.Shutter(s.cfg, w, r.machine, true).1
      case _ => false;
    if granted then 1 else 0
  }

  function AllGrants(s: Setup, w: World, calls: seq<Call>): nat
    requires s.Valid()
  {
    if calls == [] then 0
    else
      var before := calls[..|calls| - 1];
      AllGrants(s, w, before) + Grants(s, w, After(s, w, before), calls[|calls| - 1])
  }

  /** What an event adds to the granted calls of the machine. */
  function Counted(cfg: Config, w: World, m: M.Machine, e: M.Event): nat {
    if Reach.Triggers(e) && M.Step(cfg, w, m, e).1 then 1 else 0
  }

  function CountedAll(cfg: Config, w: World, m: M.Machine, events: seq<M.Event>): nat
    decreases |events|
  {
    if events == [] then 0
    else Counted(cfg, w, m, events[0]) + CountedAll(cfg, w, M.Step(cfg, w, m, events[0]).0, events[1..])
  }

  lemma {:induction false} GrantedThen(cfg: Config, w: World, earlier: seq<M.Event>, later: seq<M.Event>)
    ensures Reach.GrantedCalls(cfg, w, earlier + later) ==
            Reach.GrantedCalls(cfg, w, earlier) + CountedAll(cfg, w, M.Run(cfg, w, earlier), later)
    decreases |later|
  {
    hide M.Step;
    if later == [] {
      assert earlier + later == earlier;
    } else {
      var longer := earlier + [later[0]];
      assert longer[..|longer| - 1] == earlier;
      assert earlier + later == longer + later[1..];
      GrantedThen(cfg, w, longer, later[1..]);
    }
  }

  lemma CountOne(cfg: Config, w: World, m: M.Machine, e: M.Event)
    ensures CountedAll(cfg, w, m, [e]) == Counted(cfg, w, m, e)
    ensures CountedAll(cfg, w, m, []) == 0
  {
    assert [e][1..] == [];
    hide M.Step;
  }

  lemma CountNext(cfg: Config, w: World, m: M.Machine, e: M.Event, more: seq<M.Event>)
    ensures CountedAll(cfg, w, m, [e] + more) ==
            Counted(cfg, w, m, e) + CountedAll(cfg, w, M.Step(cfg, w, m, e).0, more)
  {
    assert ([e] + more)[1..] == more;
    hide M.Step;
  }

  lemma RequestCounts(s: Setup, w: World, r: Control, request: Http.HttpRequest, peer: string)
    requires s.Valid()
    ensures CountedAll(s.cfg, w, Clocked(r).machine, RequestEvents(s, Clocked(r), request, peer, M.Now(w, r.machine)))
            == Grants(s, w, r, Request(request, peer))
  {
    hide RateLimiting.AllowStep, EndpointOf, Prune, Lookup, Push, ParseFocus, ParseCapture, Authentic, IsJson,
         M.Tick, M.Looked, M.CountdownRemaining, M.Scheduled;
    var es := RequestEvents(s, Clocked(r), request, peer, M.Now(w, r.machine));
    CountOne(s.cfg, w, Clocked(r).machine, if es == [] then M.ClockRead else es[0]);
    hide CountedAll;
  }

  lemma CallCounts(s: Setup, w: World, r: Control, call: Call)
    requires s.Valid()
    ensures CountedAll(s.cfg, w, r.machine, CallEvents(s, w, r, call)) == Grants(s, w, r, call)
  {
    hide RequestEvents, ReplyTo, Decides, M.Tick, M.BeginCapture, M.Shutter, M.SetFocus, M.Stop, M.Start;
    match call
    case Request(request, peer) =>
      RequestCounts(s, w, r, request, peer);
      CountNext(s.cfg, w, r.machine, M.ClockRead, RequestEvents(s, Clocked(r), request, peer, M.Now(w, r.machine)));
      hide CountedAll, Grants;
    case StartUp(_, _) =>
      CountNext(s.cfg, w, r.machine, M.StartCall, [M.StopCall]);
      CountOne(s.cfg, w, r.machine, M.StartCall);
      CountOne(s.cfg, w, M.Start(r.machine), M.StopCall);
      hide CountedAll;
    case ShutDown => CountOne(s.cfg, w, r.machine, M.StopCall);
    case ServerTick => CountOne(s.cfg, w, r.machine, M.TickCall);
    case SetPreview(_) =>
    case _ => DirectCounts(s, w, r, call);
  }

  lemma DirectCounts(s: Setup, w: World, r: Control, call: Call)
    requires s.Valid() && Direct(call).Some?
    ensures CountedAll(s.cfg, w, r.machine, CallEvents(s, w, r, call)) == Grants(s, w, r, call)
  {
    hide M.Tick, M.BeginCapture, M.Shutter, M.SetFocus;
    CountOne(s.cfg, w, r.machine, Direct(call).value);
    hide CountedAll;
  }

  lemma {:induction false} GrantsAreCounted(s: Setup, w: World, calls: seq<Call>)
    requires s.Valid()
    ensures Reach.GrantedCalls(s.cfg, w, AllEvents(s, w, calls)) == AllGrants(s, w, calls)
  {
    hide CallEvents, Grants, Step;
    if calls != [] {
      var before, call := calls[..|calls| - 1], calls[|calls| - 1];
      GrantsAreCounted(s, w, before);
      RunsTheMachine(s, w, before);
      GrantedThen(s.cfg, w, AllEvents(s, w, before), CallEvents(s, w, After(s, w, before), call));
      CallCounts(s, w, After(s, w, before), call);
    }
  }

  /** The camera never takes more pictures than the runtime promised: one for each 202 it decided, each
      half-press it granted over the network, and each granted key press. */
  lemma PicturesAreGranted(s: Setup, w: World, calls: seq<Call>)
    requires s.Valid()
    ensures Reach.Captures(After(s, w, calls).machine.log) <= AllGrants(s, w, calls)
  {
    RunsTheMachine(s, w, calls);
    GrantsAreCounted(s, w, calls);
    Reach.CapturesAreGranted(s.cfg, w, AllEvents(s, w, calls));
    hide *;
  }
}
