/** How late a due job can be, while one trampoline of its type runs undisturbed. */
module SchedulerLateness {
  import opened Wrappers
  import opened JobRows
  import opened Scheduler
  import opened SchedulerHeld
  import R = TaskRegistry

  /** The last turn that has ended, if any. */
  function LastRound(loop: Loop): Option<Round> {
    match loop.pc
    case Sleeping(round) => Some(round)
    case Kernel => None
    case Stopping => None
    case _ => loop.previous
  }

  /** The row was not yet due at this turn's poll, and the turn's sleep is not longer than its interval. */
  predicate NotDueAt(row: Job, round: Round) {
    row.nextRunAt > round.polledAt && round.pause <= 60 * Minutes(row)
  }

  predicate HeldId(pc: Pc, id: int) {
    exists i :: 0 <= i < |Held(pc)| && Held(pc)[i].id == id
  }

  /** Where a turn in progress stands: what is not waiting in the batch was handled after the poll. */
  ghost predicate BatchOk(s: State, kind: string, pc: Pc, previous: Option<Round>)
    requires pc.Batch? || pc.Executing?
  {
    && pc.polledAt <= s.clock && pc.pause > 0
    && (pc.Executing? ==> pc.polledAt <= pc.start <= s.clock)
    && (previous.Some? ==> pc.polledAt == previous.value.endedAt + previous.value.pause)
    && (forall id :: id in s.rows && IsScheduled(s.rows, kind, id) ==>
          pc.pause <= 60 * Minutes(s.rows[id]) && (HeldId(pc, id) || s.rows[id].nextRunAt > pc.polledAt))
    && (forall i :: 0 <= i < |Held(pc)| ==>
          Scheduled(Held(pc)[i].snap) && (previous.Some? ==> NotDueAt(Held(pc)[i].snap, previous.value)))
  }

  ghost predicate LoopOk(s: State, kind: string, loop: Loop) {
    && (LastRound(loop).Some? ==>
          var r := LastRound(loop).value;
          && r.polledAt <= r.endedAt && r.pause > 0
          && (forall id :: id in s.rows && IsScheduled(s.rows, kind, id) ==> NotDueAt(s.rows[id], r)))
    && match loop.pc
       case Polling => loop.previous.Some? ==> s.clock == loop.previous.value.endedAt + loop.previous.value.pause
       case Sleeping(r) => s.clock <= r.endedAt + r.pause
       case Stopping => NoneScheduled(s.rows, kind)
       case Kernel => false
       case _ => BatchOk(s, kind, loop.pc, loop.previous)
  }

  /** Trampoline t is the only live one of its type; once it has returned, no job needs it. */
  ghost predicate Inv(s: State, t: nat, kind: string) {
    && WellFormed(s) && t < |s.loops| && KindOf(s, t) == kind
    && (forall u: nat {:trigger R.Live(s.reg, u)} :: R.Live(s.reg, u) && KindOf(s, u) == kind ==> u == t)
    && (if R.Live(s.reg, t) then LoopOk(s, kind, s.loops[t]) else NoneScheduled(s.rows, kind))
  }

  /**
   Nothing disturbs the trampoline: no job of its type is created or activated,
   nobody restarts it, and it polls without delay when its sleep is over.
   */
  ghost predicate Undisturbed(s: State, t: nat, kind: string, a: Action)
    requires WellFormed(s) && Enabled(s, a) && t < |s.loops|
  {
    match a
    case Create(_, jobType, _) => jobType != kind
    case Update(id, active) => active == Some(true) ==> s.rows[id].jobType != kind || s.rows[id].active
    case Schedule(i) => s.pending[i] != kind
    case Reboot(_) => false
    case Tick(seconds) =>
      R.Live(s.reg, t) ==>
        && !s.loops[t].pc.Polling?
        && (s.loops[t].pc.Sleeping? ==> s.clock + seconds <= s.loops[t].pc.round.endedAt + s.loops[t].pc.round.pause)
    case _ => true
  }

  /** Rows may be deleted, deactivated or renamed behind the trampoline's back. */
  lemma FewerRows(s: State, s': State, t: nat, kind: string)
    requires Inv(s, t, kind) && WellFormed(s') && t < |s'.loops|
    requires s'.clock == s.clock && KindOf(s', t) == kind && s'.loops[t] == s.loops[t]
    requires forall u: nat {:trigger R.Live(s'.reg, u)} :: R.Live(s'.reg, u) && KindOf(s', u) == kind ==> u < |s.loops| && R.Live(s.reg, u) && KindOf(s, u) == kind
    requires R.Live(s.reg, t) && !R.Live(s'.reg, t) ==> s.loops[t].pc.Stopping?
    requires forall id :: id in s'.rows && IsScheduled(s'.rows, kind, id) ==>
               && id in s.rows && IsScheduled(s.rows, kind, id)
               && s'.rows[id].nextRunAt == s.rows[id].nextRunAt && Minutes(s'.rows[id]) == Minutes(s.rows[id])
    ensures Inv(s', t, kind)
  {
  }

  /** Right after a poll with due jobs: those are held, all other scheduled jobs lie in the future. */
  lemma PollBatch(s: State, kind: string, due: seq<int>, minutes: int, previous: Option<Round>)
    requires IsDueList(s.rows, kind, s.clock, due) && IsMinInterval(s.rows, kind, minutes)
    requires previous.Some? ==>
               && s.clock == previous.value.endedAt + previous.value.pause
               && forall id :: id in s.rows && IsScheduled(s.rows, kind, id) ==> NotDueAt(s.rows[id], previous.value)
    ensures BatchOk(s, kind, Batch(s.clock, Snapshots(s.rows, due), 60 * minutes), previous)
  {
    var pc := Batch(s.clock, Snapshots(s.rows, due), 60 * minutes);
    forall id | id in s.rows && IsScheduled(s.rows, kind, id)
      ensures s.rows[id].nextRunAt > s.clock || HeldId(pc, id)
    {
      if IsDue(s.rows, kind, s.clock, id) {
        var i :| 0 <= i < |due| && due[i] == id;
        assert Held(pc)[i].id == id;
      }
    }
    forall i | 0 <= i < |Held(pc)|
      ensures Scheduled(Held(pc)[i].snap) && (previous.Some? ==> NotDueAt(Held(pc)[i].snap, previous.value))
    {
      assert IsDue(s.rows, kind, s.clock, due[i]);
    }
  }

  lemma PollKeeps(s: State, t: nat, kind: string, due: seq<int>, minutes: int)
    requires Inv(s, t, kind) && Enabled(s, Poll(t, due, minutes))
    ensures Inv(Next(s, Poll(t, due, minutes)), t, kind)
  {
    if !NoneScheduled(s.rows, kind) {
      var s' := Next(s, Poll(t, due, minutes));
      PollBatch(s, kind, due, minutes, s.loops[t].previous);
      assert BatchOk(s', kind, Batch(s.clock, Snapshots(s.rows, due), 60 * minutes), s.loops[t].previous);
      forall id | id in s.rows && IsScheduled(s.rows, kind, id)
        ensures due == [] ==> s.rows[id].nextRunAt > s.clock
      {
        assert IsDue(s.rows, kind, s.clock, id) ==> id in due;
      }
    }
  }

  lemma BeginKeeps(s: State, t: nat, kind: string)
    requires Inv(s, t, kind) && Enabled(s, Begin(t))
    ensures Inv(Next(s, Begin(t)), t, kind)
  {
    var s' := Next(s, Begin(t));
    var pc, pc' := s.loops[t].pc, s'.loops[t].pc;
    assert Held(pc') == Held(pc);
    forall id | id in s'.rows && IsScheduled(s'.rows, kind, id)
      ensures pc'.pause <= 60 * Minutes(s'.rows[id]) && (HeldId(pc', id) || s'.rows[id].nextRunAt > pc'.polledAt)
    {
      assert IsScheduled(s.rows, kind, id);
    }
  }

  /** A scheduled row after the write is the one just executed, or one that had been there before. */
  lemma EndRow(s: State, t: nat, kind: string, error: Option<string>, id: int)
    requires Inv(s, t, kind) && Enabled(s, End(t, error))
    requires id in Next(s, End(t, error)).rows && IsScheduled(Next(s, End(t, error)).rows, kind, id)
    ensures var s', pc := Next(s, End(t, error)), s.loops[t].pc;
            && IsScheduled(s.rows, kind, id)
            && (s'.rows[id].nextRunAt > pc.polledAt || (HeldId(s'.loops[t].pc, id) && s'.rows[id] == s.rows[id]))
            && pc.pause <= 60 * Minutes(s'.rows[id])
  {
    var pc, pc' := s.loops[t].pc, Next(s, End(t, error)).loops[t].pc;
    assert Held(pc) == [pc.entry] + pc.rest;
    assert Held(pc)[0] == pc.entry;
    assert IsScheduled(s.rows, kind, id);
    if id != pc.entry.id && HeldId(pc, id) {
      var i :| 0 <= i < |Held(pc)| && Held(pc)[i].id == id;
      assert pc.rest[i - 1].id == id && Held(pc')[i - 1] == pc.rest[i - 1];
    }
  }

  lemma EndKeeps(s: State, t: nat, kind: string, error: Option<string>)
    requires Inv(s, t, kind) && Enabled(s, End(t, error))
    ensures Inv(Next(s, End(t, error)), t, kind)
  {
    var s' := Next(s, End(t, error));
    var pc, pc' := s.loops[t].pc, s'.loops[t].pc;
    assert Held(pc)[0] == pc.entry;
    forall id | id in s'.rows && IsScheduled(s'.rows, kind, id)
      ensures IsScheduled(s.rows, kind, id)
      ensures s'.rows[id].nextRunAt > pc.polledAt || (HeldId(pc', id) && s'.rows[id] == s.rows[id])
      ensures pc.pause <= 60 * Minutes(s'.rows[id])
    {
      EndRow(s, t, kind, error, id);
    }
    forall i | 0 <= i < |Held(pc')|
      ensures Held(pc')[i] == Held(pc)[i + 1]
    {
    }
  }

  /** A trampoline of another type, or a dead one, cannot touch this type's rows. */
  lemma ForeignEnd(s: State, t: nat, kind: string, u: nat, error: Option<string>)
    requires Inv(s, t, kind) && Sound(s) && u != t && Enabled(s, End(u, error))
    ensures Inv(Next(s, End(u, error)), t, kind)
  {
    var entry := s.loops[u].pc.entry;
    assert HeldOk(s, u) && Held(s.loops[u].pc)[0] == entry;
    assert EntryOk(s, KindOf(s, u), Held(s.loops[u].pc)[0]);
    FewerRows(s, Next(s, End(u, error)), t, kind);
  }

  /** Turns of other trampolines write no row of this type. */
  lemma ForeignTurn(s: State, t: nat, kind: string, a: Action)
    requires Inv(s, t, kind) && Enabled(s, a)
    requires (a.Poll? || a.Begin? || a.Wake?) && a.t != t
    ensures Inv(Next(s, a), t, kind)
  {
    FewerRows(s, Next(s, a), t, kind);
  }

  lemma WakeKeeps(s: State, t: nat, kind: string)
    requires Inv(s, t, kind) && Enabled(s, Wake(t))
    ensures Inv(Next(s, Wake(t)), t, kind)
  {
  }

  lemma ApiKeeps(s: State, t: nat, kind: string, a: Action)
    requires Inv(s, t, kind) && Enabled(s, a) && Undisturbed(s, t, kind, a) && (a.Create? || a.Update? || a.Delete?)
    ensures Inv(Next(s, a), t, kind)
  {
    FewerRows(s, Next(s, a), t, kind);
  }

  lemma TaskKeeps(s: State, t: nat, kind: string, a: Action)
    requires Inv(s, t, kind) && Enabled(s, a) && (a.Unwind? || a.Fire?)
    ensures Inv(Next(s, a), t, kind)
  {
    FewerRows(s, Next(s, a), t, kind);
  }

  lemma StepLateness(s: State, t: nat, kind: string, a: Action)
    requires Inv(s, t, kind) && Sound(s) && R.Inv(s.reg) && Enabled(s, a) && Undisturbed(s, t, kind, a)
    ensures Inv(Next(s, a), t, kind)
  {
    var s' := Next(s, a);
    assert Inv(s', t, kind) by {
      match a
      case Poll(u, due, minutes) =>
        if u == t { PollKeeps(s, t, kind, due, minutes); } else { ForeignTurn(s, t, kind, a); }
      case Begin(u) =>
        if u == t { BeginKeeps(s, t, kind); } else { ForeignTurn(s, t, kind, a); }
      case End(u, error) =>
        if u == t { EndKeeps(s, t, kind, error); } else { ForeignEnd(s, t, kind, u, error); }
      case Wake(u) =>
        if u == t { WakeKeeps(s, t, kind); } else { ForeignTurn(s, t, kind, a); }
      case Tick(seconds) => TickKeeps(s, t, kind, seconds);
      case Schedule(i) => ScheduleKeeps(s, t, kind, i);
      case Unwind(_) => TaskKeeps(s, t, kind, a);
      case Fire(_) => TaskKeeps(s, t, kind, a);
      case _ => ApiKeeps(s, t, kind, a);
    }
  }

  lemma ScheduleKeeps(s: State, t: nat, kind: string, i: nat)
    requires Inv(s, t, kind) && R.Inv(s.reg) && Enabled(s, Schedule(i)) && s.pending[i] != kind
    ensures Inv(Next(s, Schedule(i)), t, kind)
  {
    FewerRows(s, Next(s, Schedule(i)), t, kind);
  }

  lemma TickKeeps(s: State, t: nat, kind: string, seconds: nat)
    requires Inv(s, t, kind) && Undisturbed(s, t, kind, Tick(seconds))
    ensures Inv(Next(s, Tick(seconds)), t, kind)
  {
  }

  // ------------------------------------------------------------------
  // Runs
  // ------------------------------------------------------------------

  ghost predicate AllUndisturbed(s: State, t: nat, kind: string, acts: seq<Action>)
    requires Runs(s, acts) && WellFormed(s) && t < |s.loops|
    decreases |acts|
  {
    acts == [] ||
    (Undisturbed(s, t, kind, acts[0]) &&
     (t < |Next(s, acts[0]).loops| ==>
        (StepWellFormed(s, acts[0]); AllUndisturbed(Next(s, acts[0]), t, kind, acts[1..]))))
  }

  lemma {:induction false} RunLateness(s: State, t: nat, kind: string, acts: seq<Action>)
    requires Inv(s, t, kind) && Sound(s) && R.Inv(s.reg)
    requires Runs(s, acts) && AllUndisturbed(s, t, kind, acts)
    ensures Inv(After(s, acts), t, kind)
    decreases |acts|
  {
    if acts != [] {
      StepLateness(s, t, kind, acts[0]);
      StepSound(s, acts[0]);
      StepRegistry(s, acts[0]);
      RunLateness(Next(s, acts[0]), t, kind, acts[1..]);
    }
  }

  /** No other trampoline of t's type is alive; other types may have any number. */
  ghost predicate OnlyLive(s: State, t: nat)
    requires WellFormed(s) && R.Live(s.reg, t)
  {
    forall u: nat {:trigger R.Live(s.reg, u)} :: R.Live(s.reg, u) && KindOf(s, u) == KindOf(s, t) ==> u == t
  }

  /** A trampoline that `schedule_type` has just started, with no other of its type alive. */
  lemma NewTrampoline(s: State, t: nat, kind: string)
    requires WellFormed(s) && R.Live(s.reg, t) && OnlyLive(s, t) && KindOf(s, t) == kind
    requires s.loops[t] == Loop(Polling, None)
    ensures Inv(s, t, kind)
  {
  }

  /** Time spent in the turn that is under way. */
  function Elapsed(s: State, pc: Pc): int {
    match pc
    case Batch(polledAt, _, _) => s.clock - polledAt
    case Executing(polledAt, _, _, _, _) => s.clock - polledAt
    case _ => 0
  }

  /** How long past its due time a job can be: the last turn's batch and sleep, and the turn under way. */
  ghost predicate NotTooLate(s: State, loop: Loop, dueAt: int, minutes: int, at: int) {
    LastRound(loop).Some? ==>
      var r := LastRound(loop).value;
      && r.pause <= 60 * minutes
      && at - dueAt < (r.endedAt - r.polledAt) + r.pause + Elapsed(s, loop.pc)
  }

  /**
   Bounded lateness, in every state of an undisturbed run of a trampoline: once
   a first turn is over, no schedulable job of its type is overdue by the last
   turn's batch and sleep plus the time of the turn under way; the job being
   executed started within that bound too; the sleep never exceeds its interval.
   */
  lemma BoundedLateness(s: State, t: nat, kind: string, acts: seq<Action>)
    requires Sound(s) && R.Inv(s.reg)
    requires R.Live(s.reg, t) && OnlyLive(s, t) && KindOf(s, t) == kind && s.loops[t] == Loop(Polling, None)
    requires Runs(s, acts) && AllUndisturbed(s, t, kind, acts)
    ensures var s' := After(s, acts);
            && WellFormed(s') && t < |s'.loops|
            && (!R.Live(s'.reg, t) ==> NoneScheduled(s'.rows, kind))
            && (R.Live(s'.reg, t) ==>
                  var loop := s'.loops[t];
                  && (forall id :: id in s'.rows && IsScheduled(s'.rows, kind, id) ==>
                        NotTooLate(s', loop, s'.rows[id].nextRunAt, Minutes(s'.rows[id]), s'.clock))
                  && (loop.pc.Executing? ==>
                        NotTooLate(s', loop, loop.pc.entry.snap.nextRunAt, Minutes(loop.pc.entry.snap), loop.pc.start)))
  {
    NewTrampoline(s, t, kind);
    RunLateness(s, t, kind, acts);
    var s' := After(s, acts);
    if R.Live(s'.reg, t) {
      var loop := s'.loops[t];
      if loop.pc.Executing? {
        assert Held(loop.pc)[0] == loop.pc.entry;
      }
    }
  }
}
