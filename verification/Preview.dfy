/** The live-view fallback of the camera controller: when the camera delivers no JPEG for a capture, one
    preview frame stands in for it. Captures are told apart by generation numbers. */
module Preview {
  import opened Types

  const JPEG_TIMEOUT_MS := 5000

  /** A delayed task on the main thread: ask for a frame for this generation, not before `due`. */
  datatype Task = Task(generation: int, due: int)

  /** What the rest of the program can see. */
  datatype Note = Captured(generation: int, at: int) | Cleared | Queued(generation: int, at: int)

  /** The controller: its fields, the tasks it has posted, the generations whose frame callback the camera
      may still call, and what happened. */
  datatype Camera = Camera(
    active: bool,
    open: bool,
    surfaceAvailable: bool,
    previewStarted: bool,
    captureGeneration: int,
    fallbackGeneration: int,
    fallbackDeadlineMs: int,
    tasks: seq<Task>,
    callbacks: set<int>,
    notes: seq<Note>)

  const OFF := Camera(false, false, false, false, 0, 0, 0, [], {}, [])

  // ---------------------------------------------------------------- what each call does

  function PreviewOn(c: Camera, works: bool): Camera {
    if !c.active || !c.open || !c.surfaceAvailable || c.previewStarted || !works then c
    else c.(previewStarted := true)
  }

  function Started(c: Camera, opens: bool, works: bool): Camera {
    if c.active then c
    else PreviewOn(c.(active := true, previewStarted := false, open := opens), works)
  }

  /** Nothing stands in for the last capture any more. */
  function Clear(c: Camera): Camera {
    c.(fallbackGeneration := 0, fallbackDeadlineMs := 0, notes := c.notes + [Cleared])
  }

  function Stopped(c: Camera): Camera {
    if !c.active && !c.open then c
    else Clear(c).(active := false, open := false, previewStarted := false,
                   captureGeneration := c.captureGeneration + 1, tasks := [])
  }

  function Shoot(c: Camera, takes: bool, now: int): Camera {
    if !c.active || !c.open || !takes then c
    else
      var g := c.captureGeneration + 1;
      c.(previewStarted := false, captureGeneration := g, fallbackGeneration := g,
         fallbackDeadlineMs := now + JPEG_TIMEOUT_MS,
         tasks := c.tasks + [Task(g, now + JPEG_TIMEOUT_MS)],
         notes := c.notes + [Captured(g, now)])
  }

  function RequestPending(c: Camera, now: int): Camera {
    if c.fallbackGeneration == 0 || c.fallbackGeneration != c.captureGeneration then c
    else
      var delay := c.fallbackDeadlineMs - now;
      c.(tasks := c.tasks + [Task(c.fallbackGeneration, now + if delay < 0 then 0 else delay)])
  }

  /** Both the release of the shutter and the explicit command end here. */
  function Restart(c: Camera, works: bool, now: int): Camera {
    if !c.active || !c.open || c.previewStarted then c
    else
      var s := PreviewOn(c, works);
      if s.previewStarted then RequestPending(s, now) else s
  }

  /** The main thread runs the `k`-th task. */
  function RunTask(c: Camera, k: nat, registers: bool): Camera
    requires k < |c.tasks|
  {
    var g := c.tasks[k].generation;
    var d := c.(tasks := c.tasks[..k] + c.tasks[k + 1..]);
    if !c.active || !c.previewStarted || c.fallbackGeneration != g || !c.open then d
    else if registers then d.(callbacks := d.callbacks + {g})
    else Clear(d)
  }

  /** The camera hands a frame to the callback registered for `g`. */
  function Frame(c: Camera, g: int, now: int): Camera {
    if g !in c.callbacks || c.fallbackGeneration != g then c
    else c.(fallbackGeneration := 0, fallbackDeadlineMs := 0, notes := c.notes + [Queued(g, now)])
  }

  function Jpeg(c: Camera): Camera {
    if c.active then Clear(c) else c
  }

  datatype Event =
    | StartCall(opens: bool, works: bool)
    | StopCall
    | CaptureCommand(takes: bool)
    | RestartCommand(works: bool)
    | SurfaceCreated(works: bool)
    | SurfaceDestroyed
    | TaskRuns(k: nat, registers: bool)
    | FrameArrives(generation: int)
    | JpegArrives

  function Step(c: Camera, e: Event, now: int): Camera {
    match e
    case StartCall(opens, works) => Started(c, opens, works)
    case StopCall => Stopped(c)
    case CaptureCommand(takes) => Shoot(c, takes, now)
    case RestartCommand(works) => Restart(c, works, now)
    case SurfaceCreated(works) => PreviewOn(c.(surfaceAvailable := true), works)
    case SurfaceDestroyed => c.(surfaceAvailable := false, previewStarted := false)
    case TaskRuns(k, registers) => if k < |c.tasks| && c.tasks[k].due <= now then RunTask(c, k, registers) else c
    case FrameArrives(g) => Frame(c, g, now)
    case JpegArrives => Jpeg(c)
  }

  /** Any calls, tasks and callbacks in any order; `gaps[i]` is the time before the `i`-th. */
  datatype Happening = Happening(event: Event, gap: nat)

  function Clock(run: seq<Happening>): nat {
    if run == [] then 0 else Clock(run[..|run| - 1]) + run[|run| - 1].gap
  }

  function After(run: seq<Happening>): Camera {
    if run == [] then OFF else Step(After(run[..|run| - 1]), run[|run| - 1].event, Clock(run))
  }

  // ---------------------------------------------------------------- what was promised

  datatype Shot = Shot(generation: int, at: int)

  /** The capture that still waits for a picture, judged by what happened alone. */
  function Waiting(notes: seq<Note>): Option<Shot> {
    if notes == [] then None
    else
      match notes[|notes| - 1]
      case Captured(g, at) => Some(Shot(g, at))
      case _ => None
  }

  function LastGeneration(notes: seq<Note>): int {
    if notes == [] then 0
    else
      match notes[|notes| - 1]
      case Captured(g, _) => g
      case _ => LastGeneration(notes[..|notes| - 1])
  }

  /** Generations count up; a frame is queued only for the capture that waits, and not before its time. */
  predicate Lawful(notes: seq<Note>) {
    notes == [] ||
    (var before := notes[..|notes| - 1];
     Lawful(before) &&
     match notes[|notes| - 1]
     case Captured(g, _) => LastGeneration(before) < g
     case Queued(g, at) => Waiting(before).Some? && Waiting(before).value.generation == g
                           && Waiting(before).value.at + JPEG_TIMEOUT_MS <= at
     case Cleared => true)
  }

  /** How the fields stand for what happened. */
  predicate Agrees(c: Camera, now: int) {
    && Lawful(c.notes) && 0 <= LastGeneration(c.notes) <= c.captureGeneration
    && (match Waiting(c.notes)
        case None => c.fallbackGeneration == 0
        case Some(s) =>
          && 0 < s.generation == c.fallbackGeneration == c.captureGeneration && c.active && c.open
          && c.fallbackDeadlineMs == s.at + JPEG_TIMEOUT_MS
          && (forall i :: 0 <= i < |c.tasks| && c.tasks[i].generation == s.generation ==>
                            c.fallbackDeadlineMs <= c.tasks[i].due)
          && (s.generation in c.callbacks ==> c.fallbackDeadlineMs <= now))
    && (forall i :: 0 <= i < |c.tasks| ==> 0 < c.tasks[i].generation <= c.captureGeneration)
    && (forall g :: g in c.callbacks ==> 0 < g <= c.captureGeneration)
  }

  /** `t` has what `c` has apart from its notes and its fallback, and no new tasks or callbacks. */
  predicate Quieter(c: Camera, t: Camera) {
    && c.captureGeneration <= t.captureGeneration && t.callbacks <= c.callbacks
    && forall i :: 0 <= i < |t.tasks| ==> t.tasks[i] in c.tasks
  }

  lemma NotedCleared(notes: seq<Note>)
    ensures Waiting(notes + [Cleared]) == None && LastGeneration(notes + [Cleared]) == LastGeneration(notes)
    ensures Lawful(notes) ==> Lawful(notes + [Cleared])
  {
    assert (notes + [Cleared])[..|notes|] == notes;
  }

  lemma ClearedAgrees(c: Camera, t: Camera, now: int)
    requires Agrees(c, now) && Quieter(c, t)
    requires t.notes == c.notes + [Cleared] && t.fallbackGeneration == 0
    ensures Agrees(t, now)
  {
    NotedCleared(c.notes);
  }

  lemma UnchangedAgrees(c: Camera, t: Camera, now: int)
    requires Agrees(c, now) && Quieter(c, t) && t.captureGeneration == c.captureGeneration
    requires t.notes == c.notes && t.fallbackGeneration == c.fallbackGeneration
    requires t.fallbackDeadlineMs == c.fallbackDeadlineMs && (c.active && c.open ==> t.active && t.open)
    ensures Agrees(t, now)
  {
  }

  lemma ShotAgrees(c: Camera, now: int)
    requires Agrees(c, now)
    ensures Agrees(Shoot(c, true, now), now)
  {
    var t := Shoot(c, true, now);
    if c.active && c.open {
      assert t.notes[..|c.notes|] == c.notes;
    }
  }

  lemma FrameAgrees(c: Camera, g: int, now: int)
    requires Agrees(c, now)
    ensures Agrees(Frame(c, g, now), now)
  {
    var t := Frame(c, g, now);
    if t != c {
      assert t.notes[..|c.notes|] == c.notes;
    }
  }

  lemma PendingAgrees(c: Camera, now: int)
    requires Agrees(c, now)
    ensures Agrees(RequestPending(c, now), now)
  {
  }

  lemma TaskAgrees(c: Camera, k: nat, registers: bool, now: int)
    requires Agrees(c, now) && k < |c.tasks| && c.tasks[k].due <= now
    ensures Agrees(RunTask(c, k, registers), now)
  {
    var t := RunTask(c, k, registers);
    var d := c.(tasks := c.tasks[..k] + c.tasks[k + 1..]);
    UnchangedAgrees(c, d, now);
    if t.notes != c.notes {
      ClearedAgrees(d, t, now);
    }
  }

  lemma StepAgrees(c: Camera, e: Event, now: int)
    requires Agrees(c, now)
    ensures Agrees(Step(c, e, now), now)
  {
    var t := Step(c, e, now);
    match e
    case CaptureCommand(takes) =>
      if takes {
        ShotAgrees(c, now);
      }
    case RestartCommand(works) =>
      var s := PreviewOn(c, works);
      UnchangedAgrees(c, s, now);
      PendingAgrees(s, now);
    case TaskRuns(k, registers) =>
      if k < |c.tasks| && c.tasks[k].due <= now {
        TaskAgrees(c, k, registers, now);
      }
    case FrameArrives(g) => FrameAgrees(c, g, now);
    case _ =>
      hide Agrees;
      if t.notes == c.notes {
        UnchangedAgrees(c, t, now);
      } else {
        ClearedAgrees(c, t, now);
      }
  }

  lemma AgreesLater(c: Camera, now: int, later: int)
    requires Agrees(c, now) && now <= later
    ensures Agrees(c, later)
  {
  }

  lemma {:induction false} RunAgrees(run: seq<Happening>)
    ensures Agrees(After(run), Clock(run))
  {
    hide Agrees, Step;
    if run == [] {
      NothingAgrees();
    } else {
      var before := run[..|run| - 1];
      RunAgrees(before);
      AgreesLater(After(before), Clock(before), Clock(run));
      StepAgrees(After(before), run[|run| - 1].event, Clock(run));
    }
  }

  lemma NothingAgrees()
    ensures Agrees(OFF, 0)
  {
  }

  // ---------------------------------------------------------------- what it means

  /** No generation after `g` has been seen in `notes`. */
  lemma {:induction false} GenerationsCountUp(notes: seq<Note>, i: nat, j: nat)
    requires Lawful(notes) && i <= j <= |notes|
    ensures Lawful(notes[..i]) && LastGeneration(notes[..i]) <= LastGeneration(notes[..j])
    decreases |notes| + j
  {
    if j < |notes| {
      assert notes[..|notes| - 1][..i] == notes[..i] && notes[..|notes| - 1][..j] == notes[..j];
      GenerationsCountUp(notes[..|notes| - 1], i, j);
    } else if i < j {
      GenerationsCountUp(notes, i, j - 1);
      assert notes[..j] == notes && notes[..j - 1] == notes[..|notes| - 1];
    } else {
      assert notes[..i] == notes;
    }
  }

  /** What the law says about the note with index `j`. */
  lemma LawfulAt(notes: seq<Note>, j: nat)
    requires Lawful(notes) && j < |notes|
    ensures notes[j].Captured? ==>
              LastGeneration(notes[..j]) < notes[j].generation == LastGeneration(notes[..j + 1])
    ensures notes[j].Queued? ==>
              && 0 < j && notes[j - 1].Captured? && notes[j - 1].generation == notes[j].generation
              && notes[j - 1].at + JPEG_TIMEOUT_MS <= notes[j].at
  {
    GenerationsCountUp(notes, j + 1, |notes|);
    assert notes[..j + 1][..j] == notes[..j];
  }

  /** A frame is queued right after its own capture, with no JPEG, failure or stop in between, and not
      before the timeout. */
  lemma FrameStandsIn(run: seq<Happening>, j: nat)
    requires j < |After(run).notes| && After(run).notes[j].Queued?
    ensures var notes := After(run).notes;
            && 0 < j && notes[j - 1].Captured? && notes[j - 1].generation == notes[j].generation
            && notes[j - 1].at + JPEG_TIMEOUT_MS <= notes[j].at
  {
    RunAgrees(run);
    LawfulAt(After(run).notes, j);
  }

  lemma FramesCountUp(notes: seq<Note>, i: nat, j: nat)
    requires Lawful(notes) && i < j < |notes| && notes[i].Queued? && notes[j].Queued?
    ensures notes[i].generation < notes[j].generation
  {
    hide Lawful, LastGeneration;
    LawfulAt(notes, i);
    LawfulAt(notes, j);
    LawfulAt(notes, i - 1);
    LawfulAt(notes, j - 1);
    GenerationsCountUp(notes, i, j - 1);
  }

  /** No capture gets two frames. */
  lemma OneFramePerCapture(run: seq<Happening>, i: nat, j: nat)
    requires i < j < |After(run).notes| && After(run).notes[i].Queued? && After(run).notes[j].Queued?
    ensures After(run).notes[i].generation < After(run).notes[j].generation
  {
    RunAgrees(run);
    FramesCountUp(After(run).notes, i, j);
  }

  // ---------------------------------------------------------------- when a capture is left without its frame

  /** Is anything left that can still ask for, or deliver, the frame of the waiting capture? */
  predicate Hope(c: Camera) {
    c.fallbackGeneration in c.callbacks
    || exists i :: 0 <= i < |c.tasks| && c.tasks[i].generation == c.fallbackGeneration
  }

  /** The last task of the waiting capture runs while the preview is off. */
  predicate Wasted(c: Camera, e: Event, now: int) {
    && e.TaskRuns? && e.k < |c.tasks| && c.tasks[e.k].due <= now && !c.previewStarted
    && c.tasks[e.k].generation == c.fallbackGeneration && c.fallbackGeneration !in c.callbacks
    && forall i :: 0 <= i < |c.tasks| && i != e.k ==> c.tasks[i].generation != c.fallbackGeneration
  }

  /** A command, rather than a new surface, turns the preview on again. */
  predicate Revived(c: Camera, e: Event) {
    e.RestartCommand? && e.works && c.surfaceAvailable && !c.previewStarted
  }

  lemma KeepsOthers(tasks: seq<Task>, k: nat, g: int)
    requires k < |tasks|
    ensures var rest := tasks[..k] + tasks[k + 1..];
            (exists i :: 0 <= i < |rest| && rest[i].generation == g) <==>
            (exists i :: 0 <= i < |tasks| && i != k && tasks[i].generation == g)
  {
    var rest := tasks[..k] + tasks[k + 1..];
    forall i | 0 <= i < |tasks| && i != k ensures exists j :: 0 <= j < |rest| && rest[j] == tasks[i] {
      assert rest[if i < k then i else i - 1] == tasks[i];
    }
    forall j | 0 <= j < |rest| ensures exists i :: 0 <= i < |tasks| && i != k && rest[j] == tasks[i] {
      assert tasks[if j < k then j else j + 1] == rest[j];
    }
  }

  /** While the same capture waits, its hope is only lost by a wasted task and only comes back by a command
      that restarts the preview. */
  lemma HopeStep(c: Camera, e: Event, now: int)
    requires Agrees(c, now) && Waiting(c.notes).Some? && Step(c, e, now).notes == c.notes
    ensures Hope(Step(c, e, now)) <==> Revived(c, e) || (Hope(c) && !Wasted(c, e, now))
  {
    var t := Step(c, e, now);
    match e
    case TaskRuns(k, registers) =>
      if k < |c.tasks| && c.tasks[k].due <= now {
        KeepsOthers(c.tasks, k, c.fallbackGeneration);
        TaskHope(c, k, registers, now);
      }
    case RestartCommand(works) =>
      if Revived(c, e) {
        assert t.tasks[|c.tasks|].generation == c.fallbackGeneration;
      }
    case _ =>
  }

  lemma TaskHope(c: Camera, k: nat, registers: bool, now: int)
    requires Agrees(c, now) && Waiting(c.notes).Some? && k < |c.tasks| && c.tasks[k].due <= now
    requires RunTask(c, k, registers).notes == c.notes
    requires var rest := c.tasks[..k] + c.tasks[k + 1..];
             (exists i :: 0 <= i < |rest| && rest[i].generation == c.fallbackGeneration) <==>
             (exists i :: 0 <= i < |c.tasks| && i != k && c.tasks[i].generation == c.fallbackGeneration)
    ensures Hope(RunTask(c, k, registers)) <==> Hope(c) && !Wasted(c, TaskRuns(k, registers), now)
  {
  }

  lemma ShotHasHope(c: Camera, now: int)
    requires c.active && c.open
    ensures Hope(Shoot(c, true, now))
  {
    assert Shoot(c, true, now).tasks[|c.tasks|].generation == c.captureGeneration + 1;
  }

  /** Was the last task of the latest capture wasted, and the preview not restarted by a command since? */
  predicate Stranded(run: seq<Happening>) {
    run != [] &&
    (var before, h := run[..|run| - 1], run[|run| - 1];
     var c := After(before);
     && After(run).notes == c.notes && !Revived(c, h.event)
     && (Wasted(c, h.event, Clock(run)) || Stranded(before)))
  }

  /** In every run, a waiting capture still has a task or a callback exactly when it is not stranded. */
  lemma {:induction false} WaitingHasHope(run: seq<Happening>)
    requires Waiting(After(run).notes).Some?
    ensures Hope(After(run)) <==> !Stranded(run)
  {
    var before, h := run[..|run| - 1], run[|run| - 1];
    var c, now := After(before), Clock(run);
    RunAgrees(before);
    AgreesLater(c, Clock(before), now);
    if After(run).notes == c.notes {
      WaitingHasHope(before);
      HopeStep(c, h.event, now);
    } else {
      NewShot(c, h.event, now);
    }
  }

  const UNTIL_LOSS := [Happening(StartCall(true, true), 0), Happening(SurfaceCreated(true), 0),
                       Happening(CaptureCommand(true), 0), Happening(SurfaceDestroyed, 0)]

  const WITHOUT_PREVIEW :=
    Camera(true, true, false, false, 1, 1, 5000, [Task(1, 5000)], {}, [Captured(1, 0)])

  lemma UntilLoss()
    ensures After(UNTIL_LOSS) == WITHOUT_PREVIEW && Clock(UNTIL_LOSS) == 0
  {
    var a, b, c := UNTIL_LOSS[..1], UNTIL_LOSS[..2], UNTIL_LOSS[..3];
    assert a == [] + [UNTIL_LOSS[0]] && b == a + [UNTIL_LOSS[1]] && c == b + [UNTIL_LOSS[2]];
    assert UNTIL_LOSS == c + [UNTIL_LOSS[3]];
    OneMore([], UNTIL_LOSS[0]);
    OneMore(a, UNTIL_LOSS[1]);
    OneMore(b, UNTIL_LOSS[2]);
    OneMore(c, UNTIL_LOSS[3]);
    hide After, Clock;
    assert After(b) == OFF.(active := true, open := true, surfaceAvailable := true, previewStarted := true);
    assert [] + [Task(1, 5000)] == [Task(1, 5000)];
  }

  /** A surface lost before the timeout and regained after it strands a capture: the preview is on again, but
      nothing is left that would ask for a frame. */
  lemma StrandedExample()
    ensures var c := After(UNTIL_LOSS + [Happening(TaskRuns(0, true), 5000)] + [Happening(SurfaceCreated(true), 0)]);
            c.previewStarted && Waiting(c.notes).Some? && !Hope(c)
  {
    var late, back := Happening(TaskRuns(0, true), 5000), Happening(SurfaceCreated(true), 0);
    UntilLoss();
    OneMore(UNTIL_LOSS, late);
    OneMore(UNTIL_LOSS + [late], back);
    hide After, Clock;
    assert After(UNTIL_LOSS + [late]) == WITHOUT_PREVIEW.(tasks := []);
  }

  lemma OneMore(run: seq<Happening>, h: Happening)
    ensures Clock(run + [h]) == Clock(run) + h.gap
    ensures After(run + [h]) == Step(After(run), h.event, Clock(run) + h.gap)
    ensures Clock([]) == 0 && After([]) == OFF
  {
    assert (run + [h])[..|run|] == run;
    hide Step;
  }

  lemma NewShot(c: Camera, e: Event, now: int)
    requires Step(c, e, now).notes != c.notes && Waiting(Step(c, e, now).notes).Some?
    ensures Hope(Step(c, e, now))
  {
    if e.CaptureCommand? {
      ShotHasHope(c, now);
    }
  }

  // ---------------------------------------------------------------- the controller as it runs

  class SonyCameraController {
    var active: bool
    var cameraOpen: bool
    var surfaceAvailable: bool
    var previewStarted: bool
    var captureGeneration: int
    var fallbackGeneration: int
    var fallbackDeadlineMs: int
    var posted: seq<Task>
    var callbacks: set<int>
    ghost var notes: seq<Note>

    ghost function Abs(): Camera
      reads this
    {
      Camera(active, cameraOpen, surfaceAvailable, previewStarted, captureGeneration, fallbackGeneration,
             fallbackDeadlineMs, posted, callbacks, notes)
    }

    constructor ()
      ensures Abs() == OFF
    {
      active, cameraOpen, surfaceAvailable, previewStarted := false, false, false, false;
      captureGeneration, fallbackGeneration, fallbackDeadlineMs := 0, 0, 0;
      posted, callbacks, notes := [], {}, [];
    }

    method Start(opens: bool, works: bool)
      modifies this
      ensures Abs() == Started(old(Abs()), opens, works)
    {
      if active {
        return;
      }
      active := true;
      previewStarted := false;
      cameraOpen := opens;
      if cameraOpen && surfaceAvailable {
        StartPreview(works);
      }
    }

    method Stop()
      modifies this
      ensures Abs() == Stopped(old(Abs()))
    {
      if !active && !cameraOpen {
        return;
      }
      active := false;
      captureGeneration := captureGeneration + 1;
      ClearFallback();
      posted := [];
      cameraOpen := false;
      previewStarted := false;
    }

    method ClearFallback()
      modifies `fallbackGeneration, `fallbackDeadlineMs, `notes
      ensures Abs() == Clear(old(Abs()))
    {
      fallbackGeneration := 0;
      fallbackDeadlineMs := 0;
      notes := notes + [Cleared];
    }

    method StartPreview(works: bool)
      modifies `previewStarted
      ensures Abs() == PreviewOn(old(Abs()), works)
    {
      if !active || !cameraOpen || !surfaceAvailable || previewStarted {
        return;
      }
      previewStarted := works;
    }

    method CaptureCommand(takes: bool, now: int)
      modifies this
      ensures Abs() == Shoot(old(Abs()), takes, now)
    {
      if !cameraOpen || !active || !takes {
        return;
      }
      previewStarted := false;
      captureGeneration := captureGeneration + 1;
      ScheduleFallback(captureGeneration, now);
    }

    method ScheduleFallback(generation: int, now: int)
      modifies this
      ensures Abs() == old(Abs()).(fallbackGeneration := generation, fallbackDeadlineMs := now + JPEG_TIMEOUT_MS,
                                   tasks := old(posted) + [Task(generation, now + JPEG_TIMEOUT_MS)],
                                   notes := old(notes) + [Captured(generation, now)])
    {
      fallbackGeneration := generation;
      fallbackDeadlineMs := now + JPEG_TIMEOUT_MS;
      posted := posted + [Task(generation, now + JPEG_TIMEOUT_MS)];
      notes := notes + [Captured(generation, now)];
    }

    method RestartCommand(works: bool, now: int)
      modifies this
      ensures Abs() == Restart(old(Abs()), works, now)
    {
      if !cameraOpen || !active || previewStarted {
        return;
      }
      StartPreview(works);
      if !previewStarted {
        return;
      }
      RequestPendingFallback(now);
    }

    method RequestPendingFallback(now: int)
      modifies this
      ensures Abs() == RequestPending(old(Abs()), now)
    {
      var generation := fallbackGeneration;
      if generation == 0 || generation != captureGeneration {
        return;
      }
      var delay := fallbackDeadlineMs - now;
      if delay < 0 {
        delay := 0;
      }
      posted := posted + [Task(generation, now + delay)];
    }

    method TaskRuns(k: nat, registers: bool)
      requires k < |posted|
      modifies this
      ensures Abs() == RunTask(old(Abs()), k, registers)
    {
      var generation := posted[k].generation;
      posted := posted[..k] + posted[k + 1..];
      if !active || fallbackGeneration != generation {
        return;
      }
      if previewStarted {
        RequestLiveViewFallback(generation, registers);
      }
    }

    method RequestLiveViewFallback(generation: int, registers: bool)
      modifies this
      ensures Abs() == if !cameraOpen || !previewStarted then old(Abs())
                       else if registers then old(Abs()).(callbacks := old(callbacks) + {generation})
                       else Clear(old(Abs()))
      ensures cameraOpen == old(cameraOpen) && previewStarted == old(previewStarted)
    {
      if !cameraOpen || !previewStarted {
        return;
      }
      if registers {
        callbacks := callbacks + {generation};
      } else {
        ClearFallback();
      }
    }

    method OnPreviewFrame(generation: int, now: int)
      requires generation in callbacks
      modifies this
      ensures Abs() == Frame(old(Abs()), generation, now)
    {
      if fallbackGeneration != generation {
        return;
      }
      fallbackGeneration := 0;
      fallbackDeadlineMs := 0;
      notes := notes + [Queued(generation, now)];
    }

    method HandleCapturedJpeg()
      modifies this
      ensures Abs() == Jpeg(old(Abs()))
    {
      if !active {
        return;
      }
      ClearFallback();
    }

    method OnSurfaceCreated(works: bool)
      modifies this
      ensures Abs() == Step(old(Abs()), SurfaceCreated(works), 0)
    {
      surfaceAvailable := true;
      StartPreview(works);
    }

    method OnSurfaceDestroyed()
      modifies this
      ensures Abs() == Step(old(Abs()), SurfaceDestroyed, 0)
    {
      surfaceAvailable := false;
      previewStarted := false;
    }
  }
}
