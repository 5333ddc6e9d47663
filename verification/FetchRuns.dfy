/** Whole runs of the fetching protocol: deadlock freedom, termination and accounting. */
module FetchRuns {
  import opened Wrappers
  import opened FetchProtocol

  predicate Runs(cfg: Config, s: State, acts: seq<Action>)
    decreases |acts|
  {
    acts == [] ||
    (QueueWellFormed(s) && Enabled(s, acts[0]) && Runs(cfg, Next(cfg, s, acts[0]), acts[1..]))
  }

  function After(cfg: Config, s: State, acts: seq<Action>): State
    requires Runs(cfg, s, acts)
    decreases |acts|
  {
    if acts == [] then s else After(cfg, Next(cfg, s, acts[0]), acts[1..])
  }

  /** The semaphore can be entered at all, or no task ever tries to. */
  predicate Usable(cfg: Config, n: nat) {
    cfg.maxConcurrent >= 1 || cfg.maxRetries < 0 || n == 0
  }

  // ------------------------------------------------------------------
  // Safety and termination of every schedule
  // ------------------------------------------------------------------

  /** The invariant holds after any schedule, whose length the measure bounds. */
  lemma {:induction false} RunInv(cfg: Config, s: State, acts: seq<Action>)
    requires Inv(cfg, s) && Runs(cfg, s, acts)
    ensures Inv(cfg, After(cfg, s, acts))
    ensures |After(cfg, s, acts).tasks| == |s.tasks|
    ensures |acts| + Measure(cfg, After(cfg, s, acts).tasks) <= Measure(cfg, s.tasks)
    decreases |acts|
  {
    if acts != [] {
      StepInv(cfg, s, acts[0]);
      StepMeasure(cfg, s, acts[0]);
      RunInv(cfg, Next(cfg, s, acts[0]), acts[1..]);
    }
  }

  /** No schedule of n tasks takes more than this many steps. */
  lemma Terminates(cfg: Config, n: nat, acts: seq<Action>)
    requires Runs(cfg, Init(cfg, n), acts)
    ensures |acts| <= n * (5 * Attempts(cfg) + 1)
  {
    InitInv(cfg, n);
    RunInv(cfg, Init(cfg, n), acts);
    MeasureInit(cfg, Init(cfg, n).tasks);
  }

  /** Some task can move while one is unfinished. */
  lemma Progress(cfg: Config, s: State)
    requires Inv(cfg, s) && Usable(cfg, |s.tasks|) && !AllDone(s)
    ensures exists a :: Enabled(s, a)
  {
    var t :| 0 <= t < |s.tasks| && !s.tasks[t].phase.Done?;
    match s.tasks[t].phase
    case Fresh => assert Enabled(s, Start(t));
    case Released(_) => assert Enabled(s, Resume(t));
    case InFlight(_) => assert Enabled(s, Respond(t, Failed));
    case Sleeping(_, _) => assert Enabled(s, Wake(t));
    case Waiting(_) =>
      var u :| 0 <= u < |s.tasks| && s.tasks[u].phase.Sleeping? && s.tasks[u].phase.limited;
      assert Enabled(s, Wake(u));
    case Queued(_) =>
      CountBound(s.tasks);
      var u :| 0 <= u < |s.tasks| && s.tasks[u].phase.InFlight?;
      assert Enabled(s, Respond(u, Failed));
  }

  ghost predicate DeadlockFree(cfg: Config, n: nat) {
    forall acts :: Runs(cfg, Init(cfg, n), acts) && !AllDone(After(cfg, Init(cfg, n), acts)) ==>
      exists a :: Enabled(After(cfg, Init(cfg, n), acts), a)
  }

  /** With no permits and a first attempt to make, every task ends up queued for ever. */
  ghost predicate Starved(s: State) {
    && s.permits == 0 && s.event
    && (forall t :: 0 <= t < |s.tasks| ==> s.tasks[t].phase.Fresh? || s.tasks[t].phase.Queued?)
  }

  lemma {:induction false} StarvedRun(cfg: Config, s: State) returns (acts: seq<Action>)
    requires cfg.maxRetries >= 0 && Starved(s) && Inv(cfg, s)
    ensures Runs(cfg, s, acts) && Starved(After(cfg, s, acts))
    ensures |After(cfg, s, acts).tasks| == |s.tasks|
    ensures forall a :: !Enabled(After(cfg, s, acts), a)
    decreases Measure(cfg, s.tasks)
  {
    if t :| 0 <= t < |s.tasks| && s.tasks[t].phase.Fresh? {
      var a := Start(t);
      StepInv(cfg, s, a);
      StepMeasure(cfg, s, a);
      var rest := StarvedRun(cfg, Next(cfg, s, a));
      acts := [a] + rest;
      assert acts[1..] == rest;
    } else {
      acts := [];
    }
  }

  /**
   The protocol is deadlock-free exactly when the semaphore has a permit, there
   is nothing to fetch, or no attempt is ever made.
   */
  lemma DeadlockFreeIff(cfg: Config, n: nat)
    ensures DeadlockFree(cfg, n) <==> Usable(cfg, n)
  {
    var s := Init(cfg, n);
    InitInv(cfg, n);
    if Usable(cfg, n) {
      forall acts | Runs(cfg, s, acts) && !AllDone(After(cfg, s, acts))
        ensures exists a :: Enabled(After(cfg, s, acts), a)
      {
        RunInv(cfg, s, acts);
        Progress(cfg, After(cfg, s, acts));
      }
    } else {
      var acts := StarvedRun(cfg, s);
      assert After(cfg, s, acts).tasks[0].phase.Queued? || After(cfg, s, acts).tasks[0].phase.Fresh?;
      assert !AllDone(After(cfg, s, acts));
    }
  }

  /** Whatever has happened so far, the remaining tasks can all be brought to an end. */
  lemma {:induction false} Completes(cfg: Config, s: State)
    requires Inv(cfg, s) && Usable(cfg, |s.tasks|)
    ensures exists acts :: Runs(cfg, s, acts) && AllDone(After(cfg, s, acts))
    decreases Measure(cfg, s.tasks)
  {
    if AllDone(s) {
      assert Runs(cfg, s, []) && AllDone(After(cfg, s, []));
    } else {
      Progress(cfg, s);
      var a :| Enabled(s, a);
      StepInv(cfg, s, a);
      StepMeasure(cfg, s, a);
      Completes(cfg, Next(cfg, s, a));
      var rest :| Runs(cfg, Next(cfg, s, a), rest) && AllDone(After(cfg, Next(cfg, s, a), rest));
      assert ([a] + rest)[1..] == rest;
      assert Runs(cfg, s, [a] + rest) && AllDone(After(cfg, s, [a] + rest));
    }
  }

  /** A task that is done stays done, with the result it has. */
  lemma StepKeepsDone(cfg: Config, s: State, a: Action, t: nat)
    requires QueueWellFormed(s) && Enabled(s, a) && t < |s.tasks| && s.tasks[t].phase.Done?
    ensures t < |Next(cfg, s, a).tasks| && Next(cfg, s, a).tasks[t] == s.tasks[t]
  {
    if a.Respond? {
      ReleaseFrame(s);
      HandleShape(cfg, Release(s), a.t, s.tasks[a.t].phase.attempt, a.response);
    }
  }

  // ------------------------------------------------------------------
  // Accounting
  // ------------------------------------------------------------------

  /** No answer of the run carries a Retry-After header above `cap` seconds. */
  predicate Capped(cap: real, a: Action) {
    a.Respond? && a.response.TooManyRequests? && a.response.retryAfter.Seconds? ==>
      a.response.retryAfter.seconds <= cap
  }

  /** The longest sleep after attempt k, when no header is honoured beyond `cap`. */
  function Longest(cfg: Config, cap: real, k: nat): real {
    cfg.retryDelay * Pow2(k) as real + cap
  }

  /** The sleep that the first k attempts may add up to. */
  function Budget(cfg: Config, cap: real, k: nat): real {
    if k == 0 then 0.0 else Budget(cfg, cap, k - 1) + Longest(cfg, cap, k - 1)
  }

  lemma {:induction false} BudgetClosed(cfg: Config, cap: real, k: nat)
    ensures Budget(cfg, cap, k) == cfg.retryDelay * (Pow2(k) - 1) as real + cap * k as real
  {
    if k > 0 {
      BudgetClosed(cfg, cap, k - 1);
      var d, p := cfg.retryDelay, Pow2(k - 1) as real;
      assert (Pow2(k) - 1) as real == (p - 1.0) + p;
      assert d * ((p - 1.0) + p) == d * (p - 1.0) + d * p;
      assert cap * k as real == cap * (k - 1) as real + cap;
    }
  }

  /** Every sleep the handlers ask for after attempt k. */
  lemma WaitBound(cfg: Config, cap: real, k: nat, response: Response)
    requires cfg.retryDelay >= 0.0 && cap >= 0.0 && Capped(cap, Respond(0, response))
    ensures 0.0 <= cfg.retryDelay <= Longest(cfg, cap, k)
    ensures response.TooManyRequests? ==> Lasting(Backoff(cfg, k, response.retryAfter)) <= Longest(cfg, cap, k)
    ensures Backoff(cfg, k, Missing) >= 0.0
  {
    var d, p := cfg.retryDelay, Pow2(k);
    assert d * p as real == d + d * (p - 1) as real;
    assert d * (p - 1) as real >= 0.0;
  }

  lemma {:induction false} BudgetMonotone(cfg: Config, cap: real, j: nat, k: nat)
    requires cfg.retryDelay >= 0.0 && cap >= 0.0 && j <= k
    ensures Budget(cfg, cap, j) <= Budget(cfg, cap, k)
    decreases k
  {
    if j < k {
      BudgetMonotone(cfg, cap, j, k - 1);
      WaitBound(cfg, cap, k - 1, Failed);
    }
  }

  predicate Accounted(cfg: Config, cap: real, task: Task) {
    match task.phase
    case Fresh => task.requests == 0 && task.slept == 0.0
    case InFlight(a) => task.requests == a + 1 && task.slept <= Budget(cfg, cap, a)
    case Sleeping(a, _) => task.requests == a + 1 && task.slept <= Budget(cfg, cap, a + 1)
    case Done(_) =>
      && task.requests <= Attempts(cfg)
      && task.slept <= Budget(cfg, cap, if cfg.maxRetries < 0 then 0 else cfg.maxRetries)
    case _ => task.requests == task.phase.attempt && task.slept <= Budget(cfg, cap, task.phase.attempt)
  }

  predicate AllAccounted(cfg: Config, cap: real, s: State) {
    forall t :: 0 <= t < |s.tasks| ==> Accounted(cfg, cap, s.tasks[t])
  }

  lemma {:induction false} BeginAccount(cfg: Config, cap: real, s: State, t: nat, attempt: nat)
    requires t < |s.tasks|
    requires forall u :: 0 <= u < |s.tasks| && u != t ==> Accounted(cfg, cap, s.tasks[u])
    requires s.tasks[t].requests == attempt && s.tasks[t].slept <= Budget(cfg, cap, attempt)
    requires attempt <= cfg.maxRetries || (cfg.maxRetries < 0 && attempt == 0)
    ensures AllAccounted(cfg, cap, BeginAttempt(cfg, s, t, attempt))
  {
  }

  lemma HandleAccount(cfg: Config, cap: real, s: State, t: nat, response: Response)
    requires cfg.retryDelay >= 0.0 && cap >= 0.0 && Capped(cap, Respond(t, response))
    requires t < |s.tasks| && s.tasks[t].phase.InFlight? && s.tasks[t].phase.attempt <= cfg.maxRetries
    requires AllAccounted(cfg, cap, s)
    ensures AllAccounted(cfg, cap, Handle(cfg, s, t, s.tasks[t].phase.attempt, response))
  {
    var k := s.tasks[t].phase.attempt;
    var task := Handle(cfg, s, t, k, response).tasks[t];
    HandleShape(cfg, s, t, k, response);
    assert Accounted(cfg, cap, task) by {
      if task.phase.Done? {
        BudgetMonotone(cfg, cap, k, cfg.maxRetries);
      } else {
        WaitBound(cfg, cap, k, response);
      }
    }
  }

  lemma ReleaseAccount(cfg: Config, cap: real, s: State)
    requires QueueWellFormed(s) && AllAccounted(cfg, cap, s)
    ensures AllAccounted(cfg, cap, Release(s))
  {
    ReleaseFrame(s);
  }

  lemma {:induction false} StepAccount(cfg: Config, cap: real, s: State, a: Action)
    requires cfg.retryDelay >= 0.0 && cap >= 0.0 && Capped(cap, a)
    requires Inv(cfg, s) && Enabled(s, a) && AllAccounted(cfg, cap, s)
    ensures AllAccounted(cfg, cap, Next(cfg, s, a))
  {
    var s' := Next(cfg, s, a);
    assert AllAccounted(cfg, cap, s') by {
      match a
      case Start(t) =>
        assert s' == BeginAttempt(cfg, s, t, 0);
        BeginAccount(cfg, cap, s, t, 0);
      case Resume(t) =>
        assert s' == Acquire(s, t, s.tasks[t].phase.attempt);
      case Respond(t, response) =>
        assert s' == Handle(cfg, Release(s), t, s.tasks[t].phase.attempt, response);
        RespondAccount(cfg, cap, s, t, response);
      case Wake(t) =>
        assert s' == BeginAttempt(cfg, Rouse(s, t), t, s.tasks[t].phase.attempt + 1);
        WakeAccount(cfg, cap, s, t);
    }
  }

  lemma {:induction false} RespondAccount(cfg: Config, cap: real, s: State, t: nat, response: Response)
    requires cfg.retryDelay >= 0.0 && cap >= 0.0 && Capped(cap, Respond(t, response))
    requires Inv(cfg, s) && t < |s.tasks| && s.tasks[t].phase.InFlight? && AllAccounted(cfg, cap, s)
    ensures AllAccounted(cfg, cap, Handle(cfg, Release(s), t, s.tasks[t].phase.attempt, response))
  {
    ReleaseInv(cfg, s, t);
    ReleaseAccount(cfg, cap, s);
    HandleAccount(cfg, cap, Release(s), t, response);
  }

  lemma {:induction false} WakeAccount(cfg: Config, cap: real, s: State, t: nat)
    requires t < |s.tasks| && s.tasks[t].phase.Sleeping? && s.tasks[t].phase.attempt < cfg.maxRetries
    requires AllAccounted(cfg, cap, s)
    ensures AllAccounted(cfg, cap, BeginAttempt(cfg, Rouse(s, t), t, s.tasks[t].phase.attempt + 1))
  {
    BeginAccount(cfg, cap, Rouse(s, t), t, s.tasks[t].phase.attempt + 1);
  }

  lemma {:induction false} RunAccount(cfg: Config, cap: real, s: State, acts: seq<Action>)
    requires cfg.retryDelay >= 0.0 && cap >= 0.0 && (forall i :: 0 <= i < |acts| ==> Capped(cap, acts[i]))
    requires Inv(cfg, s) && AllAccounted(cfg, cap, s) && Runs(cfg, s, acts)
    ensures AllAccounted(cfg, cap, After(cfg, s, acts))
    decreases |acts|
  {
    if acts != [] {
      StepInv(cfg, s, acts[0]);
      StepAccount(cfg, cap, s, acts[0]);
      RunAccount(cfg, cap, Next(cfg, s, acts[0]), acts[1..]);
    }
  }

  lemma TaskBound(cfg: Config, cap: real, task: Task)
    requires cfg.retryDelay >= 0.0 && cap >= 0.0
    requires AttemptInRange(cfg, task.phase) && Accounted(cfg, cap, task)
    ensures task.requests <= Attempts(cfg)
    ensures cfg.maxRetries >= 0 ==> task.slept <= Budget(cfg, cap, cfg.maxRetries)
  {
    if cfg.maxRetries >= 0 {
      match task.phase
      case Fresh => BudgetMonotone(cfg, cap, 0, cfg.maxRetries);
      case Done(_) =>
      case Sleeping(a, _) => BudgetMonotone(cfg, cap, a + 1, cfg.maxRetries);
      case _ => BudgetMonotone(cfg, cap, task.phase.attempt, cfg.maxRetries);
    }
  }

  function TotalRequests(tasks: seq<Task>): nat {
    if tasks == [] then 0 else tasks[0].requests + TotalRequests(tasks[1..])
  }

  lemma {:induction false} TotalBound(tasks: seq<Task>, bound: nat)
    requires forall t :: 0 <= t < |tasks| ==> tasks[t].requests <= bound
    ensures TotalRequests(tasks) <= bound * |tasks|
  {
    if tasks != [] {
      TotalBound(tasks[1..], bound);
      assert bound * |tasks| == bound + bound * |tasks[1..]|;
    }
  }

  lemma {:induction false} TasksBounded(cfg: Config, cap: real, n: nat, acts: seq<Action>)
    requires cfg.retryDelay >= 0.0 && cap >= 0.0 && (forall i :: 0 <= i < |acts| ==> Capped(cap, acts[i]))
    requires Runs(cfg, Init(cfg, n), acts)
    ensures var s := After(cfg, Init(cfg, n), acts);
            && |s.tasks| == n
            && (forall t :: 0 <= t < n ==> s.tasks[t].requests <= Attempts(cfg))
            && (forall t :: 0 <= t < n && cfg.maxRetries >= 0 ==> s.tasks[t].slept <= Budget(cfg, cap, cfg.maxRetries))
  {
    var s0 := Init(cfg, n);
    InitInv(cfg, n);
    RunInv(cfg, s0, acts);
    RunAccount(cfg, cap, s0, acts);
    var s := After(cfg, s0, acts);
    forall t | 0 <= t < |s.tasks|
      ensures s.tasks[t].requests <= Attempts(cfg)
      ensures cfg.maxRetries >= 0 ==> s.tasks[t].slept <= Budget(cfg, cap, cfg.maxRetries)
    {
      TaskBound(cfg, cap, s.tasks[t]);
    }
  }

  /** retry_delay * (2^max_retries - 1) + cap * max_retries */
  function Allowance(cfg: Config, cap: real): (total: real)
    requires cfg.maxRetries >= 0
  {
    cfg.retryDelay * (Pow2(cfg.maxRetries) - 1) as real + cap * cfg.maxRetries as real
  }

  lemma AllowanceIsBudget(cfg: Config, cap: real)
    requires cfg.maxRetries >= 0
    ensures Allowance(cfg, cap) == Budget(cfg, cap, cfg.maxRetries)
  {
    BudgetClosed(cfg, cap, cfg.maxRetries);
  }

  /**
   At any moment of any run, the requests sent are at most (max_retries + 1) for
   each date; and when no Retry-After header exceeds `cap`, no task has slept
   longer than retry_delay * (2^max_retries - 1) + cap * max_retries.
   Without such headers `cap` is 0.
   */
  lemma {:induction false} FetchAccounting(cfg: Config, cap: real, n: nat, acts: seq<Action>)
    requires cfg.retryDelay >= 0.0 && cap >= 0.0 && (forall i :: 0 <= i < |acts| ==> Capped(cap, acts[i]))
    requires Runs(cfg, Init(cfg, n), acts)
    ensures var s := After(cfg, Init(cfg, n), acts);
            && TotalRequests(s.tasks) <= Attempts(cfg) * n
            && forall t :: 0 <= t < |s.tasks| && cfg.maxRetries >= 0 ==> s.tasks[t].slept <= Allowance(cfg, cap)
  {
    TasksBounded(cfg, cap, n, acts);
    TotalBound(After(cfg, Init(cfg, n), acts).tasks, Attempts(cfg));
    if cfg.maxRetries >= 0 {
      AllowanceIsBudget(cfg, cap);
    }
  }

  // ------------------------------------------------------------------
  // The bounds are reached
  // ------------------------------------------------------------------

  const Refused := Respond(0, TooManyRequests(Missing))

  /** One task alone, in its k-th attempt, after k refusals without a header. */
  function Lone(cfg: Config, k: nat): State
    requires cfg.maxConcurrent >= 1
  {
    State(true, cfg.maxConcurrent - 1, [], [Task(InFlight(k), k + 1, Budget(cfg, 0.0, k))])
  }

  function LoneAsleep(cfg: Config, k: nat): State {
    State(false, cfg.maxConcurrent, [], [Task(Sleeping(k, true), k + 1, Budget(cfg, 0.0, k + 1))])
  }

  lemma LoneStarts(cfg: Config)
    requires cfg.maxConcurrent >= 1 && cfg.maxRetries >= 0
    ensures Enabled(Init(cfg, 1), Start(0)) && Next(cfg, Init(cfg, 1), Start(0)) == Lone(cfg, 0)
  {
    assert Next(cfg, Init(cfg, 1), Start(0)).tasks == Lone(cfg, 0).tasks;
  }

  lemma LoneSleeps(cfg: Config, k: nat)
    requires cfg.maxConcurrent >= 1 && k < cfg.maxRetries && cfg.retryDelay >= 0.0
    ensures Next(cfg, Lone(cfg, k), Refused) == LoneAsleep(cfg, k)
  {
    WaitBound(cfg, 0.0, k, TooManyRequests(Missing));
    assert Lasting(Backoff(cfg, k, Missing)) == Longest(cfg, 0.0, k);
    assert Next(cfg, Lone(cfg, k), Refused).tasks == LoneAsleep(cfg, k).tasks;
  }

  lemma LoneWakes(cfg: Config, k: nat)
    requires cfg.maxConcurrent >= 1 && k < cfg.maxRetries
    ensures Next(cfg, LoneAsleep(cfg, k), Wake(0)) == Lone(cfg, k + 1)
  {
    assert SetEvent(LoneAsleep(cfg, k)).tasks == LoneAsleep(cfg, k).tasks;
    assert Next(cfg, LoneAsleep(cfg, k), Wake(0)).tasks == Lone(cfg, k + 1).tasks;
  }

  lemma RunCons(cfg: Config, s: State, a: Action, rest: seq<Action>)
    requires QueueWellFormed(s) && Enabled(s, a) && Runs(cfg, Next(cfg, s, a), rest)
    ensures Runs(cfg, s, [a] + rest) && After(cfg, s, [a] + rest) == After(cfg, Next(cfg, s, a), rest)
  {
    assert ([a] + rest)[1..] == rest;
  }

  lemma {:induction false} LoneRun(cfg: Config, k: nat) returns (acts: seq<Action>)
    requires cfg.maxConcurrent >= 1 && k <= cfg.maxRetries && cfg.retryDelay >= 0.0
    ensures Runs(cfg, Lone(cfg, k), acts) && forall i :: 0 <= i < |acts| ==> Capped(0.0, acts[i])
    ensures After(cfg, Lone(cfg, k), acts).tasks == [Task(Done(None), Attempts(cfg), Budget(cfg, 0.0, cfg.maxRetries))]
    decreases cfg.maxRetries - k
  {
    if k == cfg.maxRetries {
      RunCons(cfg, Lone(cfg, k), Refused, []);
      acts := [Refused] + [];
    } else {
      var rest := LoneRun(cfg, k + 1);
      LoneSleeps(cfg, k);
      LoneWakes(cfg, k);
      RunCons(cfg, LoneAsleep(cfg, k), Wake(0), rest);
      RunCons(cfg, Lone(cfg, k), Refused, [Wake(0)] + rest);
      acts := [Refused] + ([Wake(0)] + rest);
    }
  }

  /** A task that is refused every time sends all its requests and sleeps all of its allowance: the bounds are exact. */
  lemma {:induction false} AccountingIsTight(cfg: Config) returns (acts: seq<Action>)
    requires cfg.maxConcurrent >= 1 && cfg.maxRetries >= 0 && cfg.retryDelay >= 0.0
    ensures Runs(cfg, Init(cfg, 1), acts) && forall i :: 0 <= i < |acts| ==> Capped(0.0, acts[i])
    ensures After(cfg, Init(cfg, 1), acts).tasks == [Task(Done(None), cfg.maxRetries + 1, Allowance(cfg, 0.0))]
  {
    var rest := LoneRun(cfg, 0);
    LoneStarts(cfg);
    RunCons(cfg, Init(cfg, 1), Start(0), rest);
    AllowanceIsBudget(cfg, 0.0);
    acts := [Start(0)] + rest;
  }
}
