/**
 The rate-fetching protocol of the NBU client.

 One asyncio task per date runs `_fetch_single_rate`. All tasks share one
 semaphore (`permits` and a first-in-first-out `queue`) and one pause/resume
 event. A step is what one task does between two suspensions, so every
 interleaving of tasks is a sequence of steps. What the network answers is an
 input of the step that receives it.
 */
module FetchProtocol {
  import opened Wrappers

  /** `maxRetries` may be negative: the attempt loop is then empty. */
  datatype Config = Config(maxConcurrent: nat, maxRetries: int, retryDelay: real)

  /** The Retry-After header of a 429 answer; an empty header counts as missing. */
  datatype RetryAfter = Missing | Unparsable | Seconds(seconds: real)

  datatype Response =
    | Answered(rate: Option<real>)   // 200: the currency's rate, if it is listed
    | TimedOut
    | TooManyRequests(retryAfter: RetryAfter)
    | GatewayTimeout
    | Failed                         // any other status or exception

  datatype Phase =
    | Fresh                                   // created, not yet run
    | Waiting(attempt: nat)                   // suspended on the event
    | Released(attempt: nat)                  // event was set, not yet resumed
    | Queued(attempt: nat)                    // suspended on the semaphore
    | InFlight(attempt: nat)                  // holds a permit, request sent
    | Sleeping(attempt: nat, limited: bool)   // backing off; `limited` after a 429
    | Done(result: Option<real>)

  /** A task, with the requests it has sent and the seconds it has slept so far. */
  datatype Task = Task(phase: Phase, requests: nat, slept: real)

  datatype State = State(event: bool, permits: nat, queue: seq<nat>, tasks: seq<Task>)

  datatype Action = Start(t: nat) | Resume(t: nat) | Respond(t: nat, response: Response) | Wake(t: nat)

  // ------------------------------------------------------------------
  // Steps
  // ------------------------------------------------------------------

  function Init(cfg: Config, n: nat): State {
    State(true, cfg.maxConcurrent, [], seq(n, _ => Task(Fresh, 0, 0.0)))
  }

  predicate Enabled(s: State, a: Action) {
    && a.t < |s.tasks|
    && var phase := s.tasks[a.t].phase;
       match a
       case Start(_) => phase.Fresh?
       case Resume(_) => phase.Released?
       case Respond(_, _) => phase.InFlight?
       case Wake(_) => phase.Sleeping?
  }

  function SetPhase(tasks: seq<Task>, t: nat, phase: Phase): seq<Task>
    requires t < |tasks|
  {
    tasks[t := tasks[t].(phase := phase)]
  }

  /** The task obtains a permit and sends its request. */
  function Send(tasks: seq<Task>, t: nat, attempt: nat): seq<Task>
    requires t < |tasks|
  {
    tasks[t := tasks[t].(phase := InFlight(attempt), requests := tasks[t].requests + 1)]
  }

  /** `async with self._semaphore`, on entry. */
  function Acquire(s: State, t: nat, attempt: nat): State
    requires t < |s.tasks|
  {
    if s.permits > 0 && s.queue == [] then
      s.(permits := s.permits - 1, tasks := Send(s.tasks, t, attempt))
    else
      s.(queue := s.queue + [t], tasks := SetPhase(s.tasks, t, Queued(attempt)))
  }

  predicate QueueWellFormed(s: State) {
    forall i :: 0 <= i < |s.queue| ==> s.queue[i] < |s.tasks| && s.tasks[s.queue[i]].phase.Queued?
  }

  /** `async with self._semaphore`, on exit: the permit goes to the first waiter. */
  function Release(s: State): State
    requires QueueWellFormed(s)
  {
    if s.queue == [] then
      s.(permits := s.permits + 1)
    else
      var u := s.queue[0];
      s.(queue := s.queue[1..], tasks := Send(s.tasks, u, s.tasks[u].phase.attempt))
  }

  function Unblock(task: Task): Task {
    if task.phase.Waiting? then task.(phase := Released(task.phase.attempt)) else task
  }

  /** `self._rate_limit_event.set()` wakes every task suspended on the event. */
  function SetEvent(s: State): State {
    s.(event := true, tasks := seq(|s.tasks|, i requires 0 <= i < |s.tasks| => Unblock(s.tasks[i])))
  }

  /** What happens first when a sleep is over: after a 429 the event is set again. */
  function Rouse(s: State, t: nat): State
    requires t < |s.tasks| && s.tasks[t].phase.Sleeping?
  {
    if s.tasks[t].phase.limited then SetEvent(s) else s
  }

  /** The head of the attempt loop up to the next suspension. */
  function BeginAttempt(cfg: Config, s: State, t: nat, attempt: nat): State
    requires t < |s.tasks|
  {
    if attempt > cfg.maxRetries then
      s.(tasks := SetPhase(s.tasks, t, Done(None)))
    else if s.event then
      Acquire(s, t, attempt)
    else
      s.(tasks := SetPhase(s.tasks, t, Waiting(attempt)))
  }

  function Pow2(n: nat): (p: nat)
    ensures p >= 1
  {
    if n == 0 then 1 else 2 * Pow2(n - 1)
  }

  function Backoff(cfg: Config, attempt: nat, retryAfter: RetryAfter): real {
    match retryAfter
    case Seconds(w) => w
    case Missing => cfg.retryDelay * Pow2(attempt) as real
    case Unparsable => cfg.retryDelay * Pow2(attempt) as real
  }

  /** `asyncio.sleep` returns at once when the delay is negative. */
  function Lasting(wait: real): real {
    if wait < 0.0 then 0.0 else wait
  }

  function Sleep(tasks: seq<Task>, t: nat, attempt: nat, limited: bool, wait: real): seq<Task>
    requires t < |tasks|
  {
    tasks[t := tasks[t].(phase := Sleeping(attempt, limited), slept := tasks[t].slept + Lasting(wait))]
  }

  /** What the handlers do with an answer, the permit being released already. */
  function Handle(cfg: Config, s: State, t: nat, attempt: nat, response: Response): State
    requires t < |s.tasks|
  {
    match response
    case Answered(rate) => s.(tasks := SetPhase(s.tasks, t, Done(rate)))
    case Failed => s.(tasks := SetPhase(s.tasks, t, Done(None)))
    case TooManyRequests(retryAfter) =>
      if attempt < cfg.maxRetries then
        s.(event := false, tasks := Sleep(s.tasks, t, attempt, true, Backoff(cfg, attempt, retryAfter)))
      else
        s.(tasks := SetPhase(s.tasks, t, Done(None)))
    case _ =>
      if attempt < cfg.maxRetries then
        s.(tasks := Sleep(s.tasks, t, attempt, false, cfg.retryDelay))
      else
        s.(tasks := SetPhase(s.tasks, t, Done(None)))
  }

  function Next(cfg: Config, s: State, a: Action): State
    requires QueueWellFormed(s) && Enabled(s, a)
  {
    match a
    case Start(t) => BeginAttempt(cfg, s, t, 0)
    case Resume(t) => Acquire(s, t, s.tasks[t].phase.attempt)
    case Respond(t, response) => Handle(cfg, Release(s), t, s.tasks[t].phase.attempt, response)
    case Wake(t) => BeginAttempt(cfg, Rouse(s, t), t, s.tasks[t].phase.attempt + 1)
  }

  // ------------------------------------------------------------------
  // The invariant
  // ------------------------------------------------------------------

  function InFlightCount(tasks: seq<Task>): nat {
    if tasks == [] then 0
    else (if tasks[0].phase.InFlight? then 1 else 0) + InFlightCount(tasks[1..])
  }

  predicate QueueExact(s: State) {
    && QueueWellFormed(s)
    && (forall i, k :: 0 <= i < k < |s.queue| ==> s.queue[i] != s.queue[k])
    && (forall t :: 0 <= t < |s.tasks| && s.tasks[t].phase.Queued? ==> t in s.queue)
    && (s.queue != [] ==> s.permits == 0)
  }

  ghost predicate SomeoneWillResume(s: State) {
    exists t :: 0 <= t < |s.tasks| && s.tasks[t].phase.Sleeping? && s.tasks[t].phase.limited
  }

  /** The attempt number stays inside the loop; only a non-last attempt sleeps. */
  predicate AttemptInRange(cfg: Config, phase: Phase) {
    match phase
    case Fresh => true
    case Done(_) => true
    case Sleeping(attempt, _) => attempt < cfg.maxRetries
    case _ => phase.attempt <= cfg.maxRetries
  }

  ghost predicate Inv(cfg: Config, s: State) {
    && QueueExact(s)
    && s.permits + InFlightCount(s.tasks) == cfg.maxConcurrent
    && (!s.event ==> SomeoneWillResume(s))
    && (forall t :: 0 <= t < |s.tasks| ==> AttemptInRange(cfg, s.tasks[t].phase))
    && (forall t :: 0 <= t < |s.tasks| && s.tasks[t].phase.Waiting? ==> !s.event)
  }

  predicate AllDone(s: State) {
    forall t :: 0 <= t < |s.tasks| ==> s.tasks[t].phase.Done?
  }

  // ------------------------------------------------------------------
  // Counting and measuring
  // ------------------------------------------------------------------

  function Attempts(cfg: Config): nat {
    if cfg.maxRetries < 0 then 0 else cfg.maxRetries + 1
  }

  /** Steps a task can still take: five for each attempt left, fewer inside one. */
  function TaskMeasure(cfg: Config, phase: Phase): nat {
    match phase
    case Done(_) => 0
    case Fresh => 5 * Attempts(cfg) + 1
    case _ =>
      var left := if phase.attempt <= cfg.maxRetries then cfg.maxRetries - phase.attempt else 0;
      5 * left + match phase
                 case Waiting(_) => 4
                 case Released(_) => 3
                 case Queued(_) => 2
                 case InFlight(_) => 1
                 case _ => 0
  }

  function Measure(cfg: Config, tasks: seq<Task>): nat {
    if tasks == [] then 0 else TaskMeasure(cfg, tasks[0].phase) + Measure(cfg, tasks[1..])
  }

  lemma {:induction false} CountUpdate(tasks: seq<Task>, t: nat, task: Task)
    requires t < |tasks|
    ensures InFlightCount(tasks[t := task]) ==
            InFlightCount(tasks) - (if tasks[t].phase.InFlight? then 1 else 0) + (if task.phase.InFlight? then 1 else 0)
  {
    if t == 0 {
      assert tasks[t := task][1..] == tasks[1..];
    } else {
      assert tasks[t := task][1..] == tasks[1..][t - 1 := task];
      CountUpdate(tasks[1..], t - 1, task);
    }
  }

  lemma {:induction false} CountSame(a: seq<Task>, b: seq<Task>)
    requires |a| == |b|
    requires forall i :: 0 <= i < |a| ==> (a[i].phase.InFlight? <==> b[i].phase.InFlight?)
    ensures InFlightCount(a) == InFlightCount(b)
  {
    if a != [] {
      CountSame(a[1..], b[1..]);
    }
  }

  lemma {:induction false} CountBound(tasks: seq<Task>)
    ensures InFlightCount(tasks) > 0 ==> exists t :: 0 <= t < |tasks| && tasks[t].phase.InFlight?
  {
    if tasks != [] {
      CountBound(tasks[1..]);
      if !tasks[0].phase.InFlight? && InFlightCount(tasks) > 0 {
        var t :| 0 <= t < |tasks[1..]| && tasks[1..][t].phase.InFlight?;
        assert tasks[t + 1].phase.InFlight?;
      }
    }
  }

  lemma {:induction false} MeasureMonotone(cfg: Config, a: seq<Task>, b: seq<Task>)
    requires |a| == |b|
    requires forall i :: 0 <= i < |a| ==> TaskMeasure(cfg, b[i].phase) <= TaskMeasure(cfg, a[i].phase)
    ensures Measure(cfg, b) <= Measure(cfg, a)
  {
    if a != [] {
      MeasureMonotone(cfg, a[1..], b[1..]);
    }
  }

  lemma {:induction false} MeasureFalls(cfg: Config, a: seq<Task>, b: seq<Task>, t: nat)
    requires |a| == |b| && t < |a|
    requires forall i :: 0 <= i < |a| ==> TaskMeasure(cfg, b[i].phase) <= TaskMeasure(cfg, a[i].phase)
    requires TaskMeasure(cfg, b[t].phase) < TaskMeasure(cfg, a[t].phase)
    ensures Measure(cfg, b) < Measure(cfg, a)
  {
    if t == 0 {
      MeasureMonotone(cfg, a[1..], b[1..]);
    } else {
      MeasureFalls(cfg, a[1..], b[1..], t - 1);
    }
  }

  lemma {:induction false} MeasureInit(cfg: Config, tasks: seq<Task>)
    requires forall i :: 0 <= i < |tasks| ==> tasks[i].phase == Fresh
    ensures Measure(cfg, tasks) == |tasks| * (5 * Attempts(cfg) + 1)
  {
    if tasks != [] {
      MeasureInit(cfg, tasks[1..]);
    }
  }

  lemma {:induction false} CountInit(tasks: seq<Task>)
    requires forall i :: 0 <= i < |tasks| ==> tasks[i].phase == Fresh
    ensures InFlightCount(tasks) == 0
  {
    if tasks != [] {
      CountInit(tasks[1..]);
    }
  }

  // ------------------------------------------------------------------
  // Every step keeps the invariant and lowers the measure
  // ------------------------------------------------------------------

  lemma InitInv(cfg: Config, n: nat)
    ensures Inv(cfg, Init(cfg, n))
  {
    CountInit(Init(cfg, n).tasks);
  }

  lemma {:induction false} AcquireQueue(s: State, t: nat, attempt: nat)
    requires QueueExact(s) && t < |s.tasks| && !s.tasks[t].phase.Queued?
    ensures QueueExact(Acquire(s, t, attempt))
  {
    assert t !in s.queue;
  }

  /** Another task's sleep after a 429 survives any change of task t. */
  lemma {:induction false} StillResumes(s: State, t: nat, s': State)
    requires SomeoneWillResume(s) && t < |s.tasks| == |s'.tasks|
    requires s.tasks[t].phase.Sleeping? ==> !s.tasks[t].phase.limited
    requires forall u :: 0 <= u < |s.tasks| && u != t && s.tasks[u].phase.Sleeping? ==> s'.tasks[u].phase == s.tasks[u].phase
    ensures SomeoneWillResume(s')
  {
    var u :| 0 <= u < |s.tasks| && s.tasks[u].phase.Sleeping? && s.tasks[u].phase.limited;
    assert s'.tasks[u].phase == s.tasks[u].phase;
  }

  /** Acquiring keeps the invariant for everyone. */
  lemma {:induction false} AcquireInv(cfg: Config, s: State, t: nat, attempt: nat)
    requires Inv(cfg, s) && t < |s.tasks| && attempt <= cfg.maxRetries
    requires !s.tasks[t].phase.Queued? && !s.tasks[t].phase.InFlight? && !s.tasks[t].phase.Sleeping?
    ensures Inv(cfg, Acquire(s, t, attempt))
  {
    var s' := Acquire(s, t, attempt);
    CountUpdate(s.tasks, t, s'.tasks[t]);
    AcquireQueue(s, t, attempt);
    if !s.event {
      StillResumes(s, t, s');
    }
  }

  /** The invariant while task t has given its permit back but still counts as in flight. */
  ghost predicate InvReleased(cfg: Config, s: State, t: nat) {
    && t < |s.tasks| && s.tasks[t].phase.InFlight?
    && QueueExact(s)
    && s.permits + InFlightCount(s.tasks) == cfg.maxConcurrent + 1
    && (!s.event ==> SomeoneWillResume(s))
    && (forall u :: 0 <= u < |s.tasks| ==> AttemptInRange(cfg, s.tasks[u].phase))
    && (forall u :: 0 <= u < |s.tasks| && s.tasks[u].phase.Waiting? ==> !s.event)
  }

  /** Releasing touches at most the head of the queue. */
  lemma ReleaseFrame(s: State)
    requires QueueWellFormed(s)
    ensures var s' := Release(s);
            && |s'.tasks| == |s.tasks| && s'.event == s.event
            && (forall u :: 0 <= u < |s.tasks| ==>
                  || s'.tasks[u] == s.tasks[u]
                  || (s.tasks[u].phase.Queued?
                      && s'.tasks[u] == Send(s.tasks, u, s.tasks[u].phase.attempt)[u]))
  {
  }

  lemma {:induction false} ReleaseQueue(s: State)
    requires QueueExact(s)
    ensures QueueExact(Release(s))
  {
    var s' := Release(s);
    if s.queue != [] {
      forall v | 0 <= v < |s.tasks| && s'.tasks[v].phase.Queued?
        ensures v in s.queue[1..]
      {
        assert v in s.queue && v != s.queue[0];
      }
    }
  }

  lemma {:induction false} ReleaseInv(cfg: Config, s: State, t: nat)
    requires Inv(cfg, s) && t < |s.tasks| && s.tasks[t].phase.InFlight?
    ensures InvReleased(cfg, Release(s), t) && Release(s).tasks[t] == s.tasks[t]
  {
    var s' := Release(s);
    ReleaseFrame(s);
    if s.queue != [] {
      CountUpdate(s.tasks, s.queue[0], s'.tasks[s.queue[0]]);
    }
    ReleaseQueue(s);
    if !s.event {
      StillResumes(s, t, s');
    }
  }

  /** A handler ends the task or sends it to sleep, and touches nothing else but the event. */
  lemma HandleShape(cfg: Config, s: State, t: nat, attempt: nat, response: Response)
    requires t < |s.tasks|
    ensures var s' := Handle(cfg, s, t, attempt, response);
            var phase := s'.tasks[t].phase;
            && s' == s.(event := s'.event, tasks := s.tasks[t := s'.tasks[t]])
            && (phase.Done? || (phase == Sleeping(attempt, phase.limited) && attempt < cfg.maxRetries))
            && (s'.event == s.event || (!s'.event && phase.Sleeping? && phase.limited))
  {
  }

  /** The releasing task may end, or go to sleep; only a task that resumes others may pause them. */
  lemma SettleInv(cfg: Config, s: State, t: nat, task: Task, event: bool)
    requires InvReleased(cfg, s, t)
    requires task.phase.Done? || (task.phase.Sleeping? && task.phase.attempt < cfg.maxRetries)
    requires event == s.event || (!event && task.phase.Sleeping? && task.phase.limited)
    ensures Inv(cfg, s.(event := event, tasks := s.tasks[t := task]))
  {
    var s' := s.(event := event, tasks := s.tasks[t := task]);
    CountUpdate(s.tasks, t, task);
    assert t !in s.queue;
    if !s.event {
      var u :| 0 <= u < |s.tasks| && s.tasks[u].phase.Sleeping? && s.tasks[u].phase.limited;
      assert s'.tasks[u].phase == s.tasks[u].phase;
    } else if !event {
      assert s'.tasks[t].phase.Sleeping? && s'.tasks[t].phase.limited;
    }
  }

  lemma HandleInv(cfg: Config, s: State, t: nat, response: Response)
    requires InvReleased(cfg, s, t)
    ensures Inv(cfg, Handle(cfg, s, t, s.tasks[t].phase.attempt, response))
  {
    var s' := Handle(cfg, s, t, s.tasks[t].phase.attempt, response);
    HandleShape(cfg, s, t, s.tasks[t].phase.attempt, response);
    SettleInv(cfg, s, t, s'.tasks[t], s'.event);
  }

  /** SetEvent keeps the invariant even for the task that is about to stop sleeping. */
  lemma SetEventInv(cfg: Config, s: State)
    requires Inv(cfg, s)
    ensures Inv(cfg, SetEvent(s))
  {
    CountSame(s.tasks, SetEvent(s).tasks);
  }

  /** A task that holds nothing and queues nowhere may change to another such phase. */
  lemma {:induction false} IdlePhaseInv(cfg: Config, s: State, t: nat, phase: Phase)
    requires Inv(cfg, s) && t < |s.tasks| && !s.tasks[t].phase.Queued? && !s.tasks[t].phase.InFlight?
    requires s.tasks[t].phase.Sleeping? && s.tasks[t].phase.limited ==> s.event
    requires !phase.Queued? && !phase.InFlight? && AttemptInRange(cfg, phase) && (phase.Waiting? ==> !s.event)
    ensures Inv(cfg, s.(tasks := SetPhase(s.tasks, t, phase)))
  {
    var s' := s.(tasks := SetPhase(s.tasks, t, phase));
    CountUpdate(s.tasks, t, s'.tasks[t]);
    assert t !in s.queue;
    if !s.event {
      StillResumes(s, t, s');
    }
  }

  lemma BeginForgets(cfg: Config, s: State, t: nat, phase: Phase, attempt: nat)
    requires t < |s.tasks|
    ensures BeginAttempt(cfg, s.(tasks := SetPhase(s.tasks, t, phase)), t, attempt) == BeginAttempt(cfg, s, t, attempt)
  {
  }

  lemma {:induction false} WokenBegins(cfg: Config, s: State, t: nat, attempt: nat)
    requires Inv(cfg, s) && t < |s.tasks| && s.tasks[t].phase.Sleeping? && attempt <= cfg.maxRetries
    requires s.tasks[t].phase.limited ==> s.event
    ensures Inv(cfg, BeginAttempt(cfg, s, t, attempt))
  {
    var woken := s.(tasks := SetPhase(s.tasks, t, Released(attempt)));
    IdlePhaseInv(cfg, s, t, Released(attempt));
    BeginForgets(cfg, s, t, Released(attempt), attempt);
    BeginInv(cfg, woken, t, attempt);
  }

  lemma {:induction false} RouseInv(cfg: Config, s: State, t: nat)
    requires Inv(cfg, s) && t < |s.tasks| && s.tasks[t].phase.Sleeping?
    ensures var s1 := Rouse(s, t);
            Inv(cfg, s1) && |s1.tasks| == |s.tasks| && s1.tasks[t] == s.tasks[t] && (s.tasks[t].phase.limited ==> s1.event)
  {
    SetEventInv(cfg, s);
  }

  lemma {:induction false} WakeInv(cfg: Config, s: State, t: nat)
    requires Inv(cfg, s) && t < |s.tasks| && s.tasks[t].phase.Sleeping?
    ensures Inv(cfg, BeginAttempt(cfg, Rouse(s, t), t, s.tasks[t].phase.attempt + 1))
  {
    RouseInv(cfg, s, t);
    WokenBegins(cfg, Rouse(s, t), t, s.tasks[t].phase.attempt + 1);
  }

  lemma {:induction false} BeginInv(cfg: Config, s: State, t: nat, attempt: nat)
    requires Inv(cfg, s) && t < |s.tasks| && (s.tasks[t].phase.Fresh? || s.tasks[t].phase.Released?)
    ensures Inv(cfg, BeginAttempt(cfg, s, t, attempt))
  {
    if attempt > cfg.maxRetries {
      IdlePhaseInv(cfg, s, t, Done(None));
    } else if s.event {
      AcquireInv(cfg, s, t, attempt);
    } else {
      IdlePhaseInv(cfg, s, t, Waiting(attempt));
    }
  }

  /** Mutual exclusion, the queue discipline and the resume guarantee survive every step. */
  lemma {:induction false} StepInv(cfg: Config, s: State, a: Action)
    requires Inv(cfg, s) && Enabled(s, a)
    ensures Inv(cfg, Next(cfg, s, a))
  {
    var s' := Next(cfg, s, a);
    assert Inv(cfg, s') by {
      match a
      case Start(t) =>
        assert s' == BeginAttempt(cfg, s, t, 0);
        BeginInv(cfg, s, t, 0);
      case Resume(t) =>
        assert s' == Acquire(s, t, s.tasks[t].phase.attempt);
        AcquireInv(cfg, s, t, s.tasks[t].phase.attempt);
      case Respond(t, response) =>
        assert s' == Handle(cfg, Release(s), t, s.tasks[t].phase.attempt, response);
        ReleaseInv(cfg, s, t);
        HandleInv(cfg, Release(s), t, response);
      case Wake(t) =>
        assert s' == BeginAttempt(cfg, Rouse(s, t), t, s.tasks[t].phase.attempt + 1);
        WakeInv(cfg, s, t);
    }
  }

  lemma {:induction false} BeginMeasure(cfg: Config, s: State, t: nat, attempt: nat)
    requires t < |s.tasks|
    requires TaskMeasure(cfg, s.tasks[t].phase) > 5 * Attempts(cfg) - 5 * attempt - 1
    requires TaskMeasure(cfg, s.tasks[t].phase) > 0
    ensures var s' := BeginAttempt(cfg, s, t, attempt);
            && |s'.tasks| == |s.tasks|
            && Measure(cfg, s'.tasks) < Measure(cfg, s.tasks)
  {
    MeasureFalls(cfg, s.tasks, BeginAttempt(cfg, s, t, attempt).tasks, t);
  }

  lemma HandleMeasure(cfg: Config, s: State, t: nat, response: Response)
    requires t < |s.tasks| && s.tasks[t].phase.InFlight?
    ensures var s' := Handle(cfg, s, t, s.tasks[t].phase.attempt, response);
            && |s'.tasks| == |s.tasks|
            && Measure(cfg, s'.tasks) < Measure(cfg, s.tasks)
  {
    HandleShape(cfg, s, t, s.tasks[t].phase.attempt, response);
    MeasureFalls(cfg, s.tasks, Handle(cfg, s, t, s.tasks[t].phase.attempt, response).tasks, t);
  }

  lemma ReleaseMeasure(cfg: Config, s: State)
    requires QueueWellFormed(s)
    ensures Measure(cfg, Release(s).tasks) <= Measure(cfg, s.tasks)
  {
    ReleaseFrame(s);
    MeasureMonotone(cfg, s.tasks, Release(s).tasks);
  }

  /** No schedule can go on for ever: every step of every task lowers one natural number. */
  lemma {:induction false} StepMeasure(cfg: Config, s: State, a: Action)
    requires Inv(cfg, s) && Enabled(s, a)
    ensures |Next(cfg, s, a).tasks| == |s.tasks|
    ensures Measure(cfg, Next(cfg, s, a).tasks) < Measure(cfg, s.tasks)
  {
    match a
    case Start(t) => BeginMeasure(cfg, s, t, 0);
    case Resume(t) => MeasureFalls(cfg, s.tasks, Next(cfg, s, a).tasks, t);
    case Respond(t, response) =>
      ReleaseFrame(s);
      ReleaseMeasure(cfg, s);
      HandleMeasure(cfg, Release(s), t, response);
    case Wake(t) =>
      assert Next(cfg, s, a) == BeginAttempt(cfg, Rouse(s, t), t, s.tasks[t].phase.attempt + 1);
      WakeMeasure(cfg, s, t);
  }

  lemma {:induction false} WakeMeasure(cfg: Config, s: State, t: nat)
    requires t < |s.tasks| && s.tasks[t].phase.Sleeping? && s.tasks[t].phase.attempt < cfg.maxRetries
    ensures var s' := BeginAttempt(cfg, Rouse(s, t), t, s.tasks[t].phase.attempt + 1);
            |s'.tasks| == |s.tasks| && Measure(cfg, s'.tasks) < Measure(cfg, s.tasks)
  {
    MeasureMonotone(cfg, s.tasks, Rouse(s, t).tasks);
    BeginMeasure(cfg, Rouse(s, t), t, s.tasks[t].phase.attempt + 1);
  }
}
