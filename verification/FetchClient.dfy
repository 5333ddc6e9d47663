/** The NBU client object: the protocol's steps done in place, and the draining loop. */
module FetchClient {
  import opened Wrappers
  import opened FetchProtocol
  import opened FetchRuns
  import opened FetchResults

  class Client {
    const cfg: Config
    var event: bool          // _rate_limit_event
    var permits: nat         // _semaphore
    var queue: seq<nat>
    var tasks: seq<Task>     // the tasks of the current fetch_rates call
    var completed: nat       // _completed_count
    ghost var history: seq<Action>   // the steps of the current fetch_rates call

    function View(): State
      reads this`event, this`permits, this`queue, this`tasks
    {
      State(event, permits, queue, tasks)
    }

    ghost predicate Valid()
      reads this`event, this`permits, this`queue, this`tasks
    {
      Inv(cfg, View())
    }

    /** The steps so far lead from fresh tasks to the current state. */
    ghost predicate Traced()
      reads this`event, this`permits, this`queue, this`tasks, this`history
    {
      Runs(cfg, Init(cfg, |tasks|), history) && After(cfg, Init(cfg, |tasks|), history) == View()
    }

    constructor (cfg: Config)
      ensures this.cfg == cfg && completed == 0 && View() == Init(cfg, 0)
    {
      this.cfg := cfg;
      event, permits, queue, tasks, completed := true, cfg.maxConcurrent, [], [], 0;
      history := [];
      new;
      assert Init(cfg, 0).tasks == [];
    }

    method Enter(t: nat, attempt: nat)
      requires t < |tasks|
      modifies this`permits, this`queue, this`tasks
      ensures View() == Acquire(old(View()), t, attempt)
    {
      if permits > 0 && queue == [] {
        permits := permits - 1;
        tasks := tasks[t := tasks[t].(phase := InFlight(attempt), requests := tasks[t].requests + 1)];
      } else {
        queue := queue + [t];
        tasks := tasks[t := tasks[t].(phase := Queued(attempt))];
      }
    }

    method Leave()
      requires QueueWellFormed(View())
      modifies this`permits, this`queue, this`tasks
      ensures View() == Release(old(View()))
    {
      if queue == [] {
        permits := permits + 1;
      } else {
        var u := queue[0];
        queue := queue[1..];
        tasks := tasks[u := tasks[u].(phase := InFlight(tasks[u].phase.attempt), requests := tasks[u].requests + 1)];
      }
    }

    method Begin(t: nat, attempt: nat)
      requires t < |tasks|
      modifies this`permits, this`queue, this`tasks
      ensures View() == BeginAttempt(cfg, old(View()), t, attempt)
    {
      if attempt > cfg.maxRetries {
        tasks := tasks[t := tasks[t].(phase := Done(None))];
      } else if event {
        Enter(t, attempt);
      } else {
        tasks := tasks[t := tasks[t].(phase := Waiting(attempt))];
      }
    }

    method ResumeAll()
      modifies this`event, this`tasks
      ensures View() == SetEvent(old(View()))
    {
      event := true;
      var i := 0;
      while i < |tasks|
        invariant i <= |tasks| == |old(tasks)|
        invariant forall k :: 0 <= k < i ==> tasks[k] == Unblock(old(tasks[k]))
        invariant forall k :: i <= k < |tasks| ==> tasks[k] == old(tasks[k])
        invariant event && permits == old(permits) && queue == old(queue)
      {
        if tasks[i].phase.Waiting? {
          tasks := tasks[i := tasks[i].(phase := Released(tasks[i].phase.attempt))];
        }
        i := i + 1;
      }
      assert tasks == SetEvent(old(View())).tasks;
    }

    /** One step of one task of `_fetch_single_rate`. */
    method Step(a: Action)
      requires Valid() && Enabled(View(), a)
      modifies this`event, this`permits, this`queue, this`tasks, this`history
      ensures View() == Next(cfg, old(View()), a) && history == old(history) + [a]
    {
      history := history + [a];
      match a {
        case Start(t) => Begin(t, 0);
        case Resume(t) => Enter(t, tasks[t].phase.attempt);
        case Wake(t) =>
          var phase := tasks[t].phase;
          if phase.limited {
            ResumeAll();
          }
          Begin(t, phase.attempt + 1);
        case Respond(t, response) =>
          var attempt := tasks[t].phase.attempt;
          Leave();
          if response.Answered? {
            tasks := tasks[t := tasks[t].(phase := Done(response.rate))];
          } else if response.Failed? || attempt >= cfg.maxRetries {
            tasks := tasks[t := tasks[t].(phase := Done(None))];
          } else {
            var wait := cfg.retryDelay;
            if response.TooManyRequests? {
              event := false;
              wait := Backoff(cfg, attempt, response.retryAfter);
            }
            tasks := tasks[t := tasks[t].(phase := Sleeping(attempt, response.TooManyRequests?),
                                          slept := tasks[t].slept + Lasting(wait))];
          }
      }
    }

    /** What other tasks do while `fetch_rates` is suspended: any number of steps, in any order. */
    method Elsewhere(atLeastOne: bool)
      requires Valid() && Traced() && Usable(cfg, |tasks|)
      requires atLeastOne ==> !AllDone(View())
      modifies this`event, this`permits, this`queue, this`tasks, this`history
      ensures Valid() && Traced() && |tasks| == |old(tasks)|
      ensures forall t :: 0 <= t < |tasks| && old(tasks[t].phase.Done?) ==> tasks[t] == old(tasks[t])
      ensures Measure(cfg, tasks) <= Measure(cfg, old(tasks))
      ensures atLeastOne ==> Measure(cfg, tasks) < Measure(cfg, old(tasks))
    {
      var more := atLeastOne;
      var stop := false;
      while more || !stop
        invariant Valid() && Traced() && |tasks| == |old(tasks)|
        invariant forall t :: 0 <= t < |tasks| && old(tasks[t].phase.Done?) ==> tasks[t] == old(tasks[t])
        invariant Measure(cfg, tasks) <= Measure(cfg, old(tasks))
        invariant more ==> !AllDone(View())
        invariant !more ==> atLeastOne ==> Measure(cfg, tasks) < Measure(cfg, old(tasks))
        decreases Measure(cfg, tasks), if stop then 0 else 1
      {
        if AllDone(View()) {
          stop := true;
        } else {
          ghost var before := View();
          Progress(cfg, before);
          var a: Action :| Enabled(View(), a);
          StepInv(cfg, before, a);
          StepMeasure(cfg, before, a);
          forall t | 0 <= t < |tasks| && tasks[t].phase.Done?
            ensures Next(cfg, before, a).tasks[t] == tasks[t]
          {
            StepKeepsDone(cfg, before, a, t);
          }
          RunSnoc(cfg, Init(cfg, |tasks|), history, a);
          Step(a);
          more := false;
          stop := *;
        }
      }
    }

    /**
     Yield the result of one finished task and drop it from the dictionary. The
     test for a full batch divides by max_concurrent.
     */
    method YieldOne(n: nat, pending: set<nat>, yielded: seq<(nat, Option<real>)>, t: nat)
      returns (pending': set<nat>, yielded': seq<(nat, Option<real>)>, pause: bool, failed: bool)
      requires Drained(n, pending, yielded) && t in pending && tasks[t].phase.Done?
      modifies this`completed
      ensures Drained(n, pending', yielded')
      ensures |yielded'| == |yielded| + 1 && |pending'| == |pending| - 1
      ensures completed == old(completed) + 1
      ensures failed <==> cfg.maxConcurrent == 0
      ensures pause <==> !failed && completed % cfg.maxConcurrent == 0 && |pending'| > 0
    {
      yielded' := yielded + [(t, tasks[t].phase.result)];
      pending' := pending - {t};
      completed := completed + 1;
      failed := cfg.maxConcurrent == 0;
      pause := !failed && completed % cfg.maxConcurrent == 0 && pending' != {};
    }

    /** Let other tasks run; nothing already yielded changes. */
    method Pass(n: nat, ghost pending: set<nat>, ghost yielded: seq<(nat, Option<real>)>, atLeastOne: bool)
      requires Usable(cfg, n) && Drained(n, pending, yielded)
      requires atLeastOne ==> !AllDone(View())
      modifies this`event, this`permits, this`queue, this`tasks, this`history
      ensures Drained(n, pending, yielded)
      ensures atLeastOne ==> Measure(cfg, tasks) < Measure(cfg, old(tasks))
    {
      Elsewhere(atLeastOne);
    }

    /** A finished task: its result is yielded, and others may run before the next turn. */
    method YieldTurn(n: nat, pending: set<nat>, yielded: seq<(nat, Option<real>)>, t: nat, ghost start: nat)
      returns (pending': set<nat>, yielded': seq<(nat, Option<real>)>, pause: bool, failed: bool)
      requires Usable(cfg, n) && Drained(n, pending, yielded) && t in pending && tasks[t].phase.Done?
      requires completed == start + |yielded| && |yielded| + |pending| == n
      modifies this
      ensures Drained(n, pending', yielded')
      ensures |yielded'| == |yielded| + 1 && |pending'| == |pending| - 1 && completed == old(completed) + 1
      ensures failed <==> cfg.maxConcurrent == 0
      ensures cfg.maxConcurrent == 0 ==> !pause
      ensures cfg.maxConcurrent >= 1 ==>
                Pauses(cfg.maxConcurrent, start, |yielded'|, n) ==
                Pauses(cfg.maxConcurrent, start, |yielded|, n) + if pause then 1 else 0
    {
      pending', yielded', pause, failed := YieldOne(n, pending, yielded, t);
      Pass(n, pending', yielded', false);
    }

    /** No finished task: the wait passes with steps of other tasks, or it times out with none at all. */
    method WaitTurn(n: nat, ghost pending: set<nat>, ghost yielded: seq<(nat, Option<real>)>, timeouts: nat) returns (timeouts': nat)
      requires Usable(cfg, n) && Drained(n, pending, yielded) && !AllDone(View())
      modifies this`event, this`permits, this`queue, this`tasks, this`history
      ensures Drained(n, pending, yielded) && timeouts' <= timeouts
      ensures Measure(cfg, tasks) < Measure(cfg, old(tasks)) || (tasks == old(tasks) && timeouts' < timeouts)
    {
      timeouts' := timeouts;
      if * {
        if timeouts > 0 {
          timeouts' := timeouts - 1;
          return;
        }
      }
      Pass(n, pending, yielded, true);
    }

    /**
     One turn of the draining loop. `asyncio.wait` returns when a task is done,
     or when its timeout has passed; `timeouts` counts the waits that may still
     time out without any task having made a step.
     */
    method Turn(n: nat, pending: set<nat>, yielded: seq<(nat, Option<real>)>, timeouts: nat, ghost start: nat)
      returns (pending': set<nat>, yielded': seq<(nat, Option<real>)>, timeouts': nat, pause: bool, failed: bool)
      requires Usable(cfg, n) && Drained(n, pending, yielded) && pending != {}
      requires completed == start + |yielded| && |yielded| + |pending| == n
      modifies this
      ensures Drained(n, pending', yielded') && timeouts' <= timeouts
      ensures |yielded'| - |yielded| == |pending| - |pending'| == completed - old(completed)
      ensures |pending'| == |pending| || |pending'| == |pending| - 1
      ensures failed <==> cfg.maxConcurrent == 0 && |pending'| < |pending|
      ensures cfg.maxConcurrent == 0 ==> !pause
      ensures cfg.maxConcurrent >= 1 ==>
                Pauses(cfg.maxConcurrent, start, |yielded'|, n) ==
                Pauses(cfg.maxConcurrent, start, |yielded|, n) + if pause then 1 else 0
      ensures |pending'| == |pending| ==>
                || Measure(cfg, tasks) < Measure(cfg, old(tasks))
                || (tasks == old(tasks) && timeouts' < timeouts)
    {
      if t :| t in pending && tasks[t].phase.Done? {
        timeouts' := timeouts;
        pending', yielded', pause, failed := YieldTurn(n, pending, yielded, t, start);
      } else {
        pending', yielded', pause, failed := pending, yielded, false, false;
        Unfinished(pending);
        timeouts' := WaitTurn(n, pending, yielded, timeouts);
      }
    }

    method CreateTasks(n: nat)
      requires Valid() && AllDone(View())
      modifies this`tasks, this`history
      ensures View() == Init(cfg, n) && Drained(n, Below(n), [])
    {
      AllDoneIdle(cfg, View());
      tasks := seq(n, _ => Task(Fresh, 0, 0.0));
      history := [];
      InitInv(cfg, n);
      assert View() == Init(cfg, n);
    }

    /**
     `fetch_rates`: start a task for each date, yield each result once, pause
     between batches. With max_concurrent 0 it fails after its first result.
     */
    method FetchRates(n: nat, timeouts: nat)
      returns (yielded: seq<(nat, Option<real>)>, pauses: nat, failed: bool, ghost rest: set<nat>)
      requires Valid() && AllDone(View()) && Usable(cfg, n)
      modifies this
      ensures failed <==> cfg.maxConcurrent == 0 && n > 0
      ensures Drained(n, rest, yielded) && |yielded| + |rest| == n
      ensures forall i, rate :: 0 <= i < |yielded| ==>
                (yielded[i].1 == Some(rate) <==> Respond(yielded[i].0, Answered(Some(rate))) in history)
      ensures completed == old(completed) + |yielded|
      ensures failed ==> |yielded| == 1 && pauses == 0
      ensures !failed ==> rest == {}
      ensures !failed ==> pauses == FullBatches(cfg.maxConcurrent, old(completed), n)
    {
      ghost var start := completed;
      CreateTasks(n);
      yielded, pauses, failed, rest := DrainTasks(n, timeouts, start);
      ResultsTraced(n, rest, yielded);
      if cfg.maxConcurrent >= 1 {
        PausesOfAll(cfg.maxConcurrent, start, n);
      }
    }

    /** The draining loop: `while tasks`. */
    method DrainTasks(n: nat, timeouts: nat, ghost start: nat)
      returns (yielded: seq<(nat, Option<real>)>, pauses: nat, failed: bool, ghost rest: set<nat>)
      requires Drained(n, Below(n), []) && Usable(cfg, n) && completed == start
      modifies this
      ensures Drained(n, rest, yielded) && |yielded| + |rest| == n && completed == start + |yielded|
      ensures failed || rest == {}
      ensures cfg.maxConcurrent >= 1 ==> !failed && pauses == Pauses(cfg.maxConcurrent, start, |yielded|, n)
      ensures cfg.maxConcurrent == 0 ==> pauses == 0 && |yielded| == if failed then 1 else 0
    {
      yielded, pauses, failed := [], 0, false;
      var pending, left := Below(n), timeouts;
      while pending != {} && !failed
        invariant Drained(n, pending, yielded)
        invariant completed == start + |yielded| && |yielded| + |pending| == n
        invariant cfg.maxConcurrent >= 1 ==> !failed && pauses == Pauses(cfg.maxConcurrent, start, |yielded|, n)
        invariant cfg.maxConcurrent == 0 ==> pauses == 0 && |yielded| == if failed then 1 else 0
        decreases |pending|, Measure(cfg, tasks), left
      {
        var pause: bool;
        pending, yielded, left, pause, failed := Turn(n, pending, yielded, left, start);
        if pause {
          pauses := pauses + 1;
        }
      }
      rest := pending;
    }

    /** A date has a rate exactly when the server answered it with that rate. */
    lemma ResultsTraced(n: nat, pending: set<nat>, yielded: seq<(nat, Option<real>)>)
      requires Drained(n, pending, yielded)
      ensures forall i, rate :: 0 <= i < |yielded| ==>
                (yielded[i].1 == Some(rate) <==> Respond(yielded[i].0, Answered(Some(rate))) in history)
    {
      forall i, rate | 0 <= i < |yielded|
        ensures yielded[i].1 == Some(rate) <==> Respond(yielded[i].0, Answered(Some(rate))) in history
      {
        RunResult(cfg, n, history, yielded[i].0, rate);
      }
    }

    lemma Unfinished(pending: set<nat>)
      requires pending != {} && forall t :: t in pending ==> t < |tasks| && !tasks[t].phase.Done?
      ensures !AllDone(View())
    {
      var u :| u in pending;
      assert !View().tasks[u].phase.Done?;
    }

    /** Which results have been yielded, and which tasks are still in the dictionary. */
    ghost predicate Drained(n: nat, pending: set<nat>, yielded: seq<(nat, Option<real>)>)
      reads this`event, this`permits, this`queue, this`tasks, this`history
    {
      && Valid() && Traced() && |tasks| == n
      && (forall t :: t in pending ==> t < n)
      && (forall t: nat :: t < n && t !in pending ==> tasks[t].phase.Done?)
      && (forall i :: 0 <= i < |yielded| ==>
            yielded[i].0 < n && yielded[i].0 !in pending && tasks[yielded[i].0].phase == Done(yielded[i].1))
      && (forall i, k :: 0 <= i < k < |yielded| ==> yielded[i].0 != yielded[k].0)
    }
  }

  /** Between two fetches the semaphore is full, nobody waits and nothing is paused. */
  lemma AllDoneIdle(cfg: Config, s: State)
    requires Inv(cfg, s) && AllDone(s)
    ensures s.event && s.permits == cfg.maxConcurrent && s.queue == []
  {
    CountBound(s.tasks);
    QueueHead(s);
  }

  lemma QueueHead(s: State)
    requires QueueWellFormed(s)
    ensures s.queue != [] ==> exists t :: 0 <= t < |s.tasks| && s.tasks[t].phase.Queued?
  {
    if s.queue != [] {
      assert s.tasks[s.queue[0]].phase.Queued?;
    }
  }

  /** The keys of the tasks dictionary right after it is built. */
  function Below(n: nat): (keys: set<nat>)
    ensures |keys| == n && forall t: nat :: t in keys <==> t < n
  {
    if n == 0 then {} else Below(n - 1) + {n - 1}
  }

  /** Pauses made after k of n results: one at each full batch, never after the last result. */
  function Pauses(batch: nat, start: nat, k: nat, n: nat): nat
    requires batch >= 1
  {
    if k == 0 then 0
    else Pauses(batch, start, k - 1, n) + (if (start + k) % batch == 0 && k < n then 1 else 0)
  }

  lemma DivStep(x: nat, m: nat)
    requires m >= 1
    ensures (x + 1) / m == x / m + (if (x + 1) % m == 0 then 1 else 0)
  {
    var q, r := x / m, x % m;
    assert x == m * q + r;
    if r + 1 < m {
      Quotient(x + 1, m, q, r + 1);
    } else {
      assert m * (q + 1) == m * q + m;
      Quotient(x + 1, m, q + 1, 0);
    }
  }

  lemma Quotient(x: nat, m: nat, q: nat, r: nat)
    requires m >= 1 && x == m * q + r && r < m
    ensures x / m == q && x % m == r
  {
    var q', r' := x / m, x % m;
    assert x == m * q' + r';
    Gap(m, q, q');
    Gap(m, q', q);
  }

  lemma {:induction false} Gap(m: nat, a: nat, b: nat)
    ensures a < b ==> m * a + m <= m * b
    decreases b
  {
    if a < b {
      Gap(m, a, b - 1);
      assert m * b == m * (b - 1) + m;
    }
  }

  lemma {:induction false} PausesClosed(batch: nat, start: nat, k: nat, n: nat)
    requires batch >= 1 && k <= n && n > 0
    ensures Pauses(batch, start, k, n) == (start + if k < n then k else n - 1) / batch - start / batch
  {
    if k > 0 {
      PausesClosed(batch, start, k - 1, n);
      if k < n {
        DivStep(start + k - 1, batch);
      }
    }
  }

  /** Full batches that n results complete, after `start` earlier ones; the very last result completes none. */
  function FullBatches(batch: nat, start: nat, n: nat): int {
    if n == 0 || batch == 0 then 0 else (start + n - 1) / batch - start / batch
  }

  lemma PausesOfAll(batch: nat, start: nat, n: nat)
    requires batch >= 1
    ensures Pauses(batch, start, n, n) == FullBatches(batch, start, n)
  {
    if n > 0 {
      PausesClosed(batch, start, n, n);
    }
  }
}
