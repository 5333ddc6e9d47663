/** What every step does to its task, and where the results of a run come from. */
module FetchResults {
  import opened Wrappers
  import opened FetchProtocol
  import opened FetchRuns

  // ------------------------------------------------------------------
  // Single steps
  // ------------------------------------------------------------------

  lemma Powers(k: nat)
    ensures Pow2(0) == 1 && Pow2(k + 1) == 2 * Pow2(k)
  {
  }

  /** A step adds this many seconds of sleep; a negative delay adds none. */
  predicate SleepsFor(before: Task, after: Task, wait: real) {
    after.slept == before.slept + if wait > 0.0 then wait else 0.0
  }

  /**
   The answer to a request: a 200 ends the task with its rate, any other ends it
   with nothing or, while attempts are left, sends it to sleep for the stated time.
   */
  lemma RespondEffect(cfg: Config, s: State, t: nat, response: Response)
    requires Inv(cfg, s) && Enabled(s, Respond(t, response))
    ensures var s', k := Next(cfg, s, Respond(t, response)), s.tasks[t].phase.attempt;
            var before, after := s.tasks[t], s'.tasks[t];
            && |s'.tasks| == |s.tasks| && after.requests == before.requests
            && (response.Answered? ==> after.phase == Done(response.rate))
            && (response.Failed? ==> after.phase == Done(None))
            && (!response.Answered? && k == cfg.maxRetries ==> after.phase == Done(None))
            && (response.TimedOut? || response.GatewayTimeout? ==> k < cfg.maxRetries ==>
                  after.phase == Sleeping(k, false) && SleepsFor(before, after, cfg.retryDelay))
            && (response.TooManyRequests? && k < cfg.maxRetries ==>
                  && after.phase == Sleeping(k, true)
                  && SleepsFor(before, after, if response.retryAfter.Seconds? then response.retryAfter.seconds
                                              else cfg.retryDelay * Pow2(k) as real))
            && (s'.event <==> s.event && !(response.TooManyRequests? && k < cfg.maxRetries))
  {
    ReleaseFrame(s);
  }

  /** The permit goes to the task that has waited longest, which then sends its request. */
  lemma RespondHandsOver(cfg: Config, s: State, t: nat, response: Response)
    requires Inv(cfg, s) && Enabled(s, Respond(t, response))
    ensures var s' := Next(cfg, s, Respond(t, response));
            && (s.queue == [] ==> s'.queue == [] && s'.permits == s.permits + 1)
            && (s.queue != [] ==>
                  var u := s.queue[0];
                  && s'.queue == s.queue[1..] && s'.permits == s.permits && u != t
                  && s'.tasks[u] == s.tasks[u].(phase := InFlight(s.tasks[u].phase.attempt), requests := s.tasks[u].requests + 1))
            && (forall u :: 0 <= u < |s.tasks| && u != t && (s.queue != [] ==> u != s.queue[0]) ==> s'.tasks[u] == s.tasks[u])
  {
  }

  /** Where a task that wants a permit stands after the step. */
  predicate Entered(s: State, s': State, t: nat, attempt: nat)
    requires t < |s.tasks| == |s'.tasks|
  {
    if s.permits > 0 && s.queue == [] then
      && s'.tasks[t].phase == InFlight(attempt) && s'.tasks[t].requests == s.tasks[t].requests + 1
      && s'.permits == s.permits - 1 && s'.queue == []
    else
      && s'.tasks[t].phase == Queued(attempt) && s'.tasks[t].requests == s.tasks[t].requests
      && s'.permits == s.permits && s'.queue == s.queue + [t]
  }

  /** Where a task that starts this attempt stands after the step. */
  predicate Begun(cfg: Config, s: State, s': State, t: nat, attempt: nat)
    requires t < |s.tasks| == |s'.tasks|
  {
    if attempt > cfg.maxRetries then
      s'.tasks[t].phase == Done(None) && s'.permits == s.permits && s'.queue == s.queue
    else if !s'.event then
      s'.tasks[t].phase == Waiting(attempt) && s'.permits == s.permits && s'.queue == s.queue
    else
      Entered(s, s', t, attempt)
  }

  /** A task begins with attempt 0, goes on with the attempt it was paused in, and retries with the next. */
  lemma BeginEffect(cfg: Config, s: State, a: Action)
    requires Inv(cfg, s) && Enabled(s, a) && !a.Respond?
    ensures var s', t := Next(cfg, s, a), a.t;
            && |s'.tasks| == |s.tasks| && s'.tasks[t].slept == s.tasks[t].slept
            && (a.Start? ==> s'.event == s.event && Begun(cfg, s, s', t, 0))
            && (a.Resume? ==> s'.event == s.event && Entered(s, s', t, s.tasks[t].phase.attempt))
            && (a.Wake? ==> (s'.event <==> s.event || s.tasks[t].phase.limited) && Begun(cfg, s, s', t, s.tasks[t].phase.attempt + 1))
  {
  }

  /** The end of a 429 sleep releases every paused task in its own attempt, and no step else touches another task. */
  lemma BeginFrame(cfg: Config, s: State, a: Action, u: nat)
    requires Inv(cfg, s) && Enabled(s, a) && !a.Respond? && u < |s.tasks| && u != a.t
    ensures var s' := Next(cfg, s, a);
            s'.tasks[u] == if a.Wake? && s.tasks[a.t].phase.limited && s.tasks[u].phase.Waiting?
                           then s.tasks[u].(phase := Released(s.tasks[u].phase.attempt)) else s.tasks[u]
  {
  }

  // ------------------------------------------------------------------
  // Results of runs
  // ------------------------------------------------------------------

  predicate HasResult(s: State, t: nat, rate: real) {
    t < |s.tasks| && s.tasks[t].phase == Done(Some(rate))
  }

  lemma OwnStepResult(cfg: Config, s: State, a: Action, rate: real)
    requires Inv(cfg, s) && Enabled(s, a)
    ensures HasResult(Next(cfg, s, a), a.t, rate) <==> a == Respond(a.t, Answered(Some(rate)))
  {
    if a.Respond? {
      RespondEffect(cfg, s, a.t, a.response);
    } else {
      BeginEffect(cfg, s, a);
    }
  }

  lemma OtherStepResult(cfg: Config, s: State, a: Action, t: nat, rate: real)
    requires Inv(cfg, s) && Enabled(s, a) && t < |s.tasks| && a.t != t
    ensures HasResult(Next(cfg, s, a), t, rate) <==> HasResult(s, t, rate)
  {
    if a.Respond? {
      RespondHandsOver(cfg, s, a.t, a.response);
    } else {
      BeginFrame(cfg, s, a, t);
    }
  }

  lemma StepResult(cfg: Config, s: State, a: Action, t: nat, rate: real)
    requires Inv(cfg, s) && Enabled(s, a) && t < |s.tasks|
    ensures HasResult(Next(cfg, s, a), t, rate) <==> HasResult(s, t, rate) || a == Respond(t, Answered(Some(rate)))
  {
    if a.t == t {
      OwnStepResult(cfg, s, a, rate);
    } else {
      OtherStepResult(cfg, s, a, t, rate);
    }
  }

  lemma {:induction false} RunResultFrom(cfg: Config, s: State, acts: seq<Action>, t: nat, rate: real)
    requires Inv(cfg, s) && Runs(cfg, s, acts) && t < |s.tasks|
    ensures HasResult(After(cfg, s, acts), t, rate) <==> HasResult(s, t, rate) || Respond(t, Answered(Some(rate))) in acts
    decreases |acts|
  {
    if acts != [] {
      var answer := Respond(t, Answered(Some(rate)));
      StepInv(cfg, s, acts[0]);
      StepMeasure(cfg, s, acts[0]);
      StepResult(cfg, s, acts[0], t, rate);
      RunResultFrom(cfg, Next(cfg, s, acts[0]), acts[1..], t, rate);
      assert answer in acts <==> answer == acts[0] || answer in acts[1..];
    }
  }

  /** In every run, a task has ended with a rate exactly when the server has answered it with that rate. */
  lemma RunResult(cfg: Config, n: nat, acts: seq<Action>, t: nat, rate: real)
    requires Runs(cfg, Init(cfg, n), acts) && t < n
    ensures HasResult(After(cfg, Init(cfg, n), acts), t, rate) <==> Respond(t, Answered(Some(rate))) in acts
  {
    InitInv(cfg, n);
    RunResultFrom(cfg, Init(cfg, n), acts, t, rate);
  }

  lemma {:induction false} RunSnoc(cfg: Config, s: State, acts: seq<Action>, a: Action)
    requires Runs(cfg, s, acts) && QueueWellFormed(After(cfg, s, acts)) && Enabled(After(cfg, s, acts), a)
    ensures Runs(cfg, s, acts + [a]) && After(cfg, s, acts + [a]) == Next(cfg, After(cfg, s, acts), a)
    decreases |acts|
  {
    if acts == [] {
      assert [a][1..] == [];
      assert acts + [a] == [a];
    } else {
      RunSnoc(cfg, Next(cfg, s, acts[0]), acts[1..], a);
      assert (acts + [a])[0] == acts[0] && (acts + [a])[1..] == acts[1..] + [a];
    }
  }
}
