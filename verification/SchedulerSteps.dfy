/** What each step of the scheduler does to the rows, the clock and the trampoline that takes it. */
module SchedulerSteps {
  import opened Wrappers
  import opened JobRows
  import opened Scheduler
  import opened SchedulerHeld
  import R = TaskRegistry

  /** An active job of this type with a positive interval, by its columns. */
  predicate Schedulable(job: Job, kind: string) {
    job.active && job.jobType == kind && job.intervalMinutes.Some? && job.intervalMinutes.value > 0
  }

  predicate LoopsKept(s: State, s': State, t: nat) {
    |s'.loops| == |s.loops| && forall u :: 0 <= u < |s.loops| && u != t ==> s'.loops[u] == s.loops[u]
  }

  // ------------------------------------------------------------------
  // API calls
  // ------------------------------------------------------------------

  /** A new job is active, due at once, and has never run. */
  lemma CreateEffect(s: State, id: int, jobType: string, minutes: int)
    requires WellFormed(s) && Enabled(s, Create(id, jobType, minutes))
    ensures var s' := Next(s, Create(id, jobType, minutes));
            && s'.rows.Keys == s.rows.Keys + {id}
            && s'.rows[id] == Job(jobType, Some(minutes), true, s.clock, Never, None, None, 0)
            && (forall other :: other in s.rows && other != id ==> s'.rows[other] == s.rows[other])
            && s'.specs == s.specs[id := Spec(jobType, minutes)] && s'.pending == s.pending + [jobType]
            && s' == s.(rows := s'.rows, specs := s'.specs, pending := s'.pending)
  {
  }

  /** An update sets `active` to what was sent, if anything, and promises a restart exactly for an active job of a known type. */
  lemma UpdateEffect(s: State, id: int, active: Option<bool>)
    requires WellFormed(s) && Enabled(s, Update(id, active))
    ensures var s' := Next(s, Update(id, active));
            && OtherRowsKept(s.rows, s'.rows, id)
            && (active.Some? ==> s'.rows[id] == s.rows[id].(active := active.value))
            && (active.None? ==> s'.rows[id] == s.rows[id])
            && s'.pending == s.pending + (if s'.rows[id].active && s.rows[id].jobType in s.kinds then [s.rows[id].jobType] else [])
            && s' == s.(rows := s'.rows, pending := s'.pending)
  {
  }

  lemma DeleteEffect(s: State, id: int)
    requires WellFormed(s) && Enabled(s, Delete(id))
    ensures var s' := Next(s, Delete(id));
            && s'.rows.Keys == s.rows.Keys - {id} && (forall other :: other in s'.rows ==> s'.rows[other] == s.rows[other])
            && s' == s.(rows := s'.rows)
  {
  }

  /** The call that had committed starts a trampoline of its type, under its own key. */
  lemma ScheduleEffect(s: State, i: nat)
    requires WellFormed(s) && Enabled(s, Schedule(i))
    ensures var s', kind, added := Next(s, Schedule(i)), s.pending[i], |s.loops|;
            && |s'.pending| == |s.pending| - 1
            && (forall k :: 0 <= k < |s'.pending| ==> s'.pending[k] == s.pending[if k < i then k else k + 1])
            && |s'.loops| == |s'.reg.tasks| == added + 1 && LoopsKept(s, s'.(loops := s'.loops[..added]), added)
            && s'.reg.tasks[added] == R.Task(kind, false, R.Running)
            && kind in s'.reg.registry && s'.reg.registry[kind] == added
            && s'.loops[added] == Loop(if s.kinds[kind] then Kernel else Polling, None)
            && s' == s.(reg := s'.reg, loops := s'.loops, pending := s'.pending)
  {
  }

  // ------------------------------------------------------------------
  // Turns of a trampoline
  // ------------------------------------------------------------------

  lemma TickEffect(s: State, seconds: nat)
    requires WellFormed(s)
    ensures Next(s, Tick(seconds)) == s.(clock := s.clock + seconds)
  {
  }

  /** The pause after a poll is the least interval of the scheduled jobs, in seconds. */
  predicate LeastPause(rows: Table, kind: string, pause: int) {
    && (exists id :: id in rows && Schedulable(rows[id], kind) && pause == 60 * rows[id].intervalMinutes.value)
    && (forall id :: id in rows && Schedulable(rows[id], kind) ==> pause <= 60 * rows[id].intervalMinutes.value)
  }

  /** Exactly the due jobs are taken in hand, as they are in the table now. */
  predicate TakesDue(rows: Table, kind: string, now: int, held: seq<Entry>) {
    && (forall i :: 0 <= i < |held| ==>
          && held[i].id in rows && held[i].snap == rows[held[i].id]
          && Schedulable(held[i].snap, kind) && held[i].snap.nextRunAt <= now)
    && (forall id :: id in rows && Schedulable(rows[id], kind) && rows[id].nextRunAt <= now ==>
          exists i :: 0 <= i < |held| && held[i].id == id)
  }

  lemma PollTakesDue(s: State, t: nat, due: seq<int>, minutes: int)
    requires WellFormed(s) && Enabled(s, Poll(t, due, minutes)) && !NoneScheduled(s.rows, KindOf(s, t))
    ensures TakesDue(s.rows, KindOf(s, t), s.clock, Held(Next(s, Poll(t, due, minutes)).loops[t].pc))
  {
    var kind, held := KindOf(s, t), Snapshots(s.rows, due);
    assert Held(Next(s, Poll(t, due, minutes)).loops[t].pc) == held;
    forall i | 0 <= i < |held| ensures Schedulable(held[i].snap, kind) && held[i].snap.nextRunAt <= s.clock {
      assert IsDue(s.rows, kind, s.clock, due[i]);
    }
    forall id | id in s.rows && Schedulable(s.rows[id], kind) && s.rows[id].nextRunAt <= s.clock
      ensures exists i :: 0 <= i < |held| && held[i].id == id
    {
      assert IsDue(s.rows, kind, s.clock, id);
      var i :| 0 <= i < |due| && due[i] == id;
      assert held[i].id == id;
    }
  }

  lemma PollPause(s: State, t: nat, due: seq<int>, minutes: int)
    requires WellFormed(s) && Enabled(s, Poll(t, due, minutes)) && !NoneScheduled(s.rows, KindOf(s, t))
    ensures LeastPause(s.rows, KindOf(s, t), 60 * minutes)
  {
    var kind := KindOf(s, t);
    var least :| least in s.rows && IsScheduled(s.rows, kind, least) && Minutes(s.rows[least]) == minutes;
    assert Schedulable(s.rows[least], kind);
    forall id | id in s.rows && Schedulable(s.rows[id], kind) ensures minutes <= s.rows[id].intervalMinutes.value {
      assert IsScheduled(s.rows, kind, id);
    }
  }

  /** A poll stops when nothing of the type is schedulable; otherwise it takes what is due, and will pause for the least interval. */
  lemma PollEffect(s: State, t: nat, due: seq<int>, minutes: int)
    requires WellFormed(s) && Enabled(s, Poll(t, due, minutes))
    ensures var s', kind := Next(s, Poll(t, due, minutes)), KindOf(s, t);
            var pc := s'.loops[t].pc;
            && s' == s.(loops := s'.loops) && LoopsKept(s, s', t) && s'.loops[t].previous == s.loops[t].previous
            && (pc.Stopping? <==> forall id :: id in s.rows ==> !Schedulable(s.rows[id], kind))
            && (!pc.Stopping? ==>
                  && TakesDue(s.rows, kind, s.clock, Held(pc))
                  && (if Held(pc) == [] then pc.Sleeping? && pc.round.polledAt == s.clock && pc.round.endedAt == s.clock
                      else pc.Batch? && pc.polledAt == s.clock)
                  && LeastPause(s.rows, kind, if pc.Sleeping? then pc.round.pause else pc.pause))
  {
    var kind := KindOf(s, t);
    assert forall id :: id in s.rows ==> (IsScheduled(s.rows, kind, id) <==> Schedulable(s.rows[id], kind));
    if !NoneScheduled(s.rows, kind) {
      PollTakesDue(s, t, due, minutes);
      PollPause(s, t, due, minutes);
    }
  }

  /** The first job in hand is marked as running, and starts now. */
  lemma BeginEffect(s: State, t: nat)
    requires WellFormed(s) && Enabled(s, Begin(t))
    ensures var s', pc := Next(s, Begin(t)), s.loops[t].pc;
            var entry := pc.todo[0];
            && s'.loops[t] == s.loops[t].(pc := Executing(pc.polledAt, entry, s.clock, pc.todo[1..], pc.pause)) && LoopsKept(s, s', t)
            && OtherRowsKept(s.rows, s'.rows, entry.id)
            && (entry.id in s.rows ==> s'.rows[entry.id] == s.rows[entry.id].(lastStatus := InProgress))
            && s' == s.(rows := s'.rows, loops := s'.loops)
  {
    MarkEffect(s.rows, s.loops[t].pc.todo[0].id);
  }

  /** The finished run is written and logged; the trampoline goes on with the rest, or to sleep from now on. */
  lemma EndEffect(s: State, t: nat, error: Option<string>)
    requires WellFormed(s) && Enabled(s, End(t, error))
    ensures var s', pc := Next(s, End(t, error)), s.loops[t].pc;
            var id := pc.entry.id;
            && OtherRowsKept(s.rows, s'.rows, id)
            && (id in s.rows ==> Finished(s.rows[id], pc.entry.snap, s'.rows[id], Outcome(pc.start, error)))
            && s'.log == s.log + [Run(id, pc.start)] && LoopsKept(s, s', t)
            && s'.loops[t] == s.loops[t].(pc := if pc.rest == [] then Sleeping(Round(pc.polledAt, s.clock, pc.pause))
                                                else Batch(pc.polledAt, pc.rest, pc.pause))
            && s' == s.(rows := s'.rows, loops := s'.loops, log := s'.log)
  {
    RecordEffect(s.rows, s.loops[t].pc.entry, Outcome(s.loops[t].pc.start, error));
  }

  /** A trampoline wakes only after its whole pause, to poll again. */
  lemma WakeEffect(s: State, t: nat)
    requires WellFormed(s) && Enabled(s, Wake(t))
    ensures var s', round := Next(s, Wake(t)), s.loops[t].pc.round;
            && s.clock - round.endedAt >= round.pause
            && s'.loops[t] == Loop(Polling, Some(round)) && LoopsKept(s, s', t) && s' == s.(loops := s'.loops)
  {
  }

  // ------------------------------------------------------------------
  // Restart of the process
  // ------------------------------------------------------------------

  /** The log, the clock and the jobs survive; stale rows are reset; one trampoline runs per listed type; no call is pending. */
  lemma RebootEffect(s: State, order: seq<string>)
    requires WellFormed(s) && Enabled(s, Reboot(order))
    ensures var s' := Next(s, Reboot(order));
            && s'.clock == s.clock && s'.log == s.log && s'.specs == s.specs && s'.kinds == s.kinds && s'.pending == []
            && s'.rows.Keys == s.rows.Keys
            && (forall id :: id in s.rows ==>
                  s'.rows[id] == if s.rows[id].lastStatus == InProgress && s.rows[id].nextRunAt <= s.clock
                                 then s.rows[id].(lastStatus := Stale, nextRunAt := s.clock) else s.rows[id])
            && |s'.loops| == |s'.reg.tasks| == |order|
            && (forall t :: 0 <= t < |order| ==>
                  && s'.reg.tasks[t] == R.Task(order[t], false, R.Running)
                  && s'.loops[t] == Loop(if s.kinds[order[t]] then Kernel else Polling, None))
  {
    ResetEffect(s.rows, s.clock);
    StartAllEffect(order);
  }
}
