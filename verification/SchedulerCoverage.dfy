/** No schedulable job is ever left without a trampoline. */
module SchedulerCoverage {
  import opened Wrappers
  import opened JobRows
  import opened Scheduler
  import R = TaskRegistry

  /** A live trampoline of this type that has not decided to stop. */
  predicate Serves(s: State, t: nat, kind: string)
    requires WellFormed(s)
  {
    R.Live(s.reg, t) && KindOf(s, t) == kind && !s.loops[t].pc.Stopping?
  }

  /** The type is served, or an API call is about to call `schedule_type` for it. */
  ghost predicate Covered(s: State, kind: string)
    requires WellFormed(s)
  {
    (exists t: nat :: Serves(s, t, kind)) || kind in s.pending
  }

  predicate NeedsTrampoline(s: State, id: int) {
    && id in s.rows && s.rows[id].active && Scheduled(s.rows[id])
    && s.rows[id].jobType in s.kinds && !s.kinds[s.rows[id].jobType]
  }

  ghost predicate Coverage(s: State)
    requires WellFormed(s)
  {
    forall id :: id in s.rows && NeedsTrampoline(s, id) ==> Covered(s, s.rows[id].jobType)
  }

  ghost predicate Inv(s: State) {
    WellFormed(s) && R.Inv(s.reg) && Coverage(s)
  }

  /** A step that leaves the tasks and the API calls alone keeps a type covered. */
  lemma Keep(s: State, s': State, kind: string)
    requires WellFormed(s) && WellFormed(s') && Covered(s, kind)
    requires forall t: nat :: Serves(s, t, kind) ==> Serves(s', t, kind)
    requires kind in s.pending ==> kind in s'.pending
    ensures Covered(s', kind)
  {
    if t: nat :| Serves(s, t, kind) {
      assert Serves(s', t, kind);
    }
  }

  lemma ScheduleCovers(s: State, i: nat, kind: string)
    requires WellFormed(s) && R.Inv(s.reg) && i < |s.pending| && Covered(s, kind)
    ensures Covered(Next(s, Schedule(i)), kind)
  {
    var s' := Next(s, Schedule(i));
    if kind == s.pending[i] {
      assert Serves(s', |s.loops|, kind);
    } else if t: nat :| Serves(s, t, kind) {
      assert Serves(s', t, kind);
    } else {
      var k :| 0 <= k < |s.pending| && s.pending[k] == kind;
      assert s'.pending[if k < i then k else k - 1] == kind;
    }
  }

  lemma PollCovers(s: State, t: nat, due: seq<int>, minutes: int, kind: string)
    requires WellFormed(s) && Enabled(s, Poll(t, due, minutes)) && Covered(s, kind)
    requires !NoneScheduled(s.rows, kind)
    ensures Covered(Next(s, Poll(t, due, minutes)), kind)
  {
    Keep(s, Next(s, Poll(t, due, minutes)), kind);
  }

  lemma BootTask(order: seq<string>, i: nat)
    requires Distinct(order) && i < |order|
    ensures StartAll(order).tasks[i] == R.Task(order[i], false, R.Running)
  {
    StartAllEffect(order);
  }

  lemma BootServes(s: State, order: seq<string>, kind: string)
    requires WellFormed(s) && Enabled(s, Reboot(order)) && kind in order
    ensures Covered(Boot(s, order), kind)
  {
    var i :| 0 <= i < |order| && order[i] == kind;
    BootTask(order, i);
    assert Serves(Boot(s, order), i, kind);
  }

  lemma RebootCovers(s: State, order: seq<string>)
    requires WellFormed(s) && Enabled(s, Reboot(order))
    ensures Inv(Boot(s, order))
  {
    var s' := Boot(s, order);
    assert R.Inv(s'.reg) by { StartAllEffect(order); }
    forall id | id in s'.rows && NeedsTrampoline(s', id)
      ensures Covered(s', s'.rows[id].jobType)
    {
      assert id in s.rows && s.rows[id].active;
      BootServes(s, order, s.rows[id].jobType);
    }
  }

  /** Writing one row to a state less active than before, or promising its type, keeps coverage. */
  lemma WriteCovers(s: State, s': State, id: int)
    requires Inv(s) && WellFormed(s')
    requires s'.kinds == s.kinds && s'.reg == s.reg && |s'.pending| >= |s.pending| && s'.pending[..|s.pending|] == s.pending
    requires forall t: nat, k :: Serves(s, t, k) ==> Serves(s', t, k)
    requires forall k :: k in s'.rows && k != id ==> k in s.rows && s'.rows[k] == s.rows[k]
    requires NeedsTrampoline(s', id) ==>
               s'.rows[id].jobType in s'.pending || (NeedsTrampoline(s, id) && s.rows[id].jobType == s'.rows[id].jobType)
    ensures Coverage(s')
  {
    forall k | k in s'.rows && NeedsTrampoline(s', k)
      ensures Covered(s', s'.rows[k].jobType)
    {
      if k != id || s'.rows[id].jobType !in s'.pending {
        assert NeedsTrampoline(s, k);
        Keep(s, s', s'.rows[k].jobType);
      }
    }
  }

  /** The table stays as it is, and every covered type stays covered. */
  lemma SameRows(s: State, s': State)
    requires Inv(s) && WellFormed(s') && s'.rows == s.rows && s'.kinds == s.kinds
    requires forall k :: Covered(s, k) ==> Covered(s', k)
    ensures Coverage(s')
  {
    forall id | id in s'.rows && NeedsTrampoline(s', id) ensures Covered(s', s'.rows[id].jobType) {
      assert NeedsTrampoline(s, id);
    }
  }

  /** A trampoline that stops has seen, in the same step, that its type needs none. */
  lemma PollKeepsCoverage(s: State, t: nat, due: seq<int>, minutes: int)
    requires Inv(s) && Enabled(s, Poll(t, due, minutes))
    ensures Coverage(Next(s, Poll(t, due, minutes)))
  {
    var s' := Next(s, Poll(t, due, minutes));
    forall id | id in s'.rows && NeedsTrampoline(s', id)
      ensures Covered(s', s'.rows[id].jobType)
    {
      assert NeedsTrampoline(s, id) && IsScheduled(s.rows, s.rows[id].jobType, id);
      PollCovers(s, t, due, minutes, s.rows[id].jobType);
    }
  }

  lemma QuietKeepsCoverage(s: State, a: Action)
    requires Inv(s) && Enabled(s, a) && (a.Tick? || a.Wake? || a.Unwind? || a.Fire?)
    ensures Coverage(Next(s, a))
  {
    var s' := Next(s, a);
    forall k | Covered(s, k) ensures Covered(s', k) {
      Keep(s, s', k);
    }
    SameRows(s, s');
  }

  lemma ScheduleKeepsCoverage(s: State, i: nat)
    requires Inv(s) && Enabled(s, Schedule(i))
    ensures WellFormed(Next(s, Schedule(i))) && Coverage(Next(s, Schedule(i)))
  {
    var s' := Next(s, Schedule(i));
    StepWellFormed(s, Schedule(i));
    forall k | Covered(s, k) ensures Covered(s', k) {
      ScheduleCovers(s, i, k);
    }
    SameRows(s, s');
  }

  lemma WriteKeepsCoverage(s: State, a: Action)
    requires Inv(s) && Enabled(s, a) && (a.Create? || a.Update? || a.Delete?)
    ensures WellFormed(Next(s, a)) && Coverage(Next(s, a))
  {
    WriteCovers(s, Next(s, a), a.id);
  }

  /**
   Coverage survives every interleaving of API commits, `schedule_type` calls,
   polls, executions, sleeps, stops, callbacks and restarts of the process.
   */
  lemma StepCoverage(s: State, a: Action)
    requires Inv(s) && Enabled(s, a)
    ensures Inv(Next(s, a))
  {
    var s' := Next(s, a);
    StepWellFormed(s, a);
    StepRegistry(s, a);
    assert Coverage(s') by {
      match a
      case Create(_, _, _) => WriteKeepsCoverage(s, a);
      case Update(_, _) => WriteKeepsCoverage(s, a);
      case Delete(_) => WriteKeepsCoverage(s, a);
      case Schedule(i) => ScheduleKeepsCoverage(s, i);
      case Poll(t, due, minutes) => PollKeepsCoverage(s, t, due, minutes);
      case Begin(t) => WriteCovers(s, s', s.loops[t].pc.todo[0].id);
      case End(t, error) => WriteCovers(s, s', s.loops[t].pc.entry.id);
      case Reboot(order) => RebootCovers(s, order);
      case _ => QuietKeepsCoverage(s, a);
    }
  }

  /** From start-up on, in every run, every schedulable job is covered. */
  lemma {:induction false} AlwaysCovered(s: State, order: seq<string>, acts: seq<Action>)
    requires WellFormed(s) && IsBootOrder(s.kinds, s.rows, order) && Runs(Boot(s, order), acts)
    ensures Inv(After(Boot(s, order), acts))
  {
    RebootCovers(s, order);
    RunCoverage(Boot(s, order), acts);
  }

  lemma {:induction false} RunCoverage(s: State, acts: seq<Action>)
    requires Inv(s) && Runs(s, acts)
    ensures Inv(After(s, acts))
    decreases |acts|
  {
    if acts != [] {
      StepCoverage(s, acts[0]);
      RunCoverage(Next(s, acts[0]), acts[1..]);
    }
  }
}
