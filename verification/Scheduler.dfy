/**
 The job scheduler: trampolines, the jobs table and the API calls that restart
 trampolines, as one interleaved state machine with a clock in seconds.

 A step is one database commit or one stretch of code without a suspension.
 The key `trampoline:<type>` is written as the type itself.
 */
module Scheduler {
  import opened Wrappers
  import opened JobRows
  import R = TaskRegistry

  /** One turn of a trampoline: when it polled, when its batch ended, how long it then sleeps. */
  datatype Round = Round(polledAt: int, endedAt: int, pause: int)

  datatype Pc =
    | Polling
    | Batch(polledAt: int, todo: seq<Entry>, pause: int)
    | Executing(polledAt: int, entry: Entry, start: int, rest: seq<Entry>, pause: int)
    | Sleeping(round: Round)
    | Stopping      // has seen no scheduled job and is about to return
    | Kernel        // a kernel trampoline, which never reads the table

  datatype Loop = Loop(pc: Pc, previous: Option<Round>)

  /** A completed execution. */
  datatype Run = Run(id: int, start: int)

  /** What never changes about a job, kept even after the row is deleted. */
  datatype Spec = Spec(jobType: string, minutes: int)

  /**
   `kinds` is the job-type registry: known types, and whether they are kernel
   types. `pending` holds the API calls that have committed an active job and
   have still to call `schedule_type`. `specs` and `log` record the past.
   */
  datatype State = State(
    clock: int,
    kinds: map<string, bool>,
    rows: Table,
    reg: R.State,
    loops: seq<Loop>,
    pending: seq<string>,
    specs: map<int, Spec>,
    log: seq<Run>)

  datatype Action =
    | Tick(seconds: nat)
    | Create(id: int, jobType: string, minutes: int)
    | Update(id: int, active: Option<bool>)
    | Delete(id: int)
    | Schedule(i: nat)
    | Poll(t: nat, due: seq<int>, minutes: int)
    | Begin(t: nat)
    | End(t: nat, error: Option<string>)
    | Wake(t: nat)
    | Unwind(t: nat)
    | Fire(t: nat)
    | Reboot(order: seq<string>)

  // ------------------------------------------------------------------
  // Queries
  // ------------------------------------------------------------------

  /** `active_jobs_by_type`, restricted to jobs with a positive interval. */
  predicate IsScheduled(rows: Table, kind: string, id: int) {
    id in rows && rows[id].active && rows[id].jobType == kind && Scheduled(rows[id])
  }

  predicate NoneScheduled(rows: Table, kind: string) {
    forall id :: id in rows ==> !IsScheduled(rows, kind, id)
  }

  predicate IsDue(rows: Table, kind: string, now: int, id: int) {
    IsScheduled(rows, kind, id) && rows[id].nextRunAt <= now
  }

  predicate Distinct<T(==)>(items: seq<T>) {
    forall i, k :: 0 <= i < k < |items| ==> items[i] != items[k]
  }

  /** `due` lists the due jobs in whatever order the database returns them. */
  predicate IsDueList(rows: Table, kind: string, now: int, due: seq<int>) {
    && Distinct(due)
    && (forall i :: 0 <= i < |due| ==> IsDue(rows, kind, now, due[i]))
    && (forall id :: id in rows && IsDue(rows, kind, now, id) ==> id in due)
  }

  predicate IsMinInterval(rows: Table, kind: string, minutes: int) {
    && (exists id :: id in rows && IsScheduled(rows, kind, id) && Minutes(rows[id]) == minutes)
    && (forall id :: id in rows && IsScheduled(rows, kind, id) ==> minutes <= Minutes(rows[id]))
  }

  function Snapshots(rows: Table, due: seq<int>): (entries: seq<Entry>)
    requires forall i :: 0 <= i < |due| ==> due[i] in rows
  {
    seq(|due|, i requires 0 <= i < |due| => Entry(due[i], rows[due[i]]))
  }

  // ------------------------------------------------------------------
  // Trampolines
  // ------------------------------------------------------------------

  function NewLoop(kinds: map<string, bool>, kind: string): Loop {
    Loop(if kind in kinds && kinds[kind] then Kernel else Polling, None)
  }

  function KindOf(s: State, t: nat): string
    requires t < |s.reg.tasks|
  {
    s.reg.tasks[t].key
  }

  /** After the batch the trampoline sleeps. */
  function Proceed(polledAt: int, todo: seq<Entry>, pause: int, now: int): Pc {
    if todo == [] then Sleeping(Round(polledAt, now, pause)) else Batch(polledAt, todo, pause)
  }

  function SetPc(loops: seq<Loop>, t: nat, pc: Pc): seq<Loop>
    requires t < |loops|
  {
    loops[t := loops[t].(pc := pc)]
  }

  predicate WellFormed(s: State) {
    && R.WellFormed(s.reg) && |s.loops| == |s.reg.tasks|
    && (forall i :: 0 <= i < |s.pending| ==> s.pending[i] in s.kinds)
  }

  // ------------------------------------------------------------------
  // Start-up
  // ------------------------------------------------------------------

  /** `bootstrap` starts exactly these types: every kernel type, and known types with an active job. */
  predicate IsBootOrder(kinds: map<string, bool>, rows: Table, order: seq<string>) {
    && Distinct(order)
    && (forall i :: 0 <= i < |order| ==>
          order[i] in kinds && (kinds[order[i]] || exists id :: id in rows && rows[id].active && rows[id].jobType == order[i]))
    && (forall k :: k in kinds && kinds[k] ==> k in order)
    && (forall id :: id in rows && rows[id].active && rows[id].jobType in kinds ==> rows[id].jobType in order)
  }

  function StartAll(order: seq<string>): (reg: R.State)
    ensures R.WellFormed(reg) && |reg.tasks| == |order|
  {
    if order == [] then R.Empty
    else R.RunTask(StartAll(order[..|order| - 1]), order[|order| - 1])
  }

  /** A new process: the table and the clock survive, tasks and pending calls do not. */
  function Boot(s: State, order: seq<string>): State {
    s.(rows := ResetStale(s.rows, s.clock),
       reg := StartAll(order),
       loops := seq(|order|, i requires 0 <= i < |order| => NewLoop(s.kinds, order[i])),
       pending := [])
  }

  // ------------------------------------------------------------------
  // Steps
  // ------------------------------------------------------------------

  predicate Enabled(s: State, a: Action)
    requires WellFormed(s)
  {
    match a
    case Tick(_) => true
    case Create(id, jobType, minutes) =>
      id !in s.specs && jobType in s.kinds && !s.kinds[jobType] && minutes != 0
    case Update(id, active) => id in s.rows
    case Delete(id) => id in s.rows
    case Schedule(i) => i < |s.pending|
    case Poll(t, due, minutes) =>
      && R.Live(s.reg, t) && s.loops[t].pc.Polling?
      && (NoneScheduled(s.rows, KindOf(s, t)) ||
          (IsDueList(s.rows, KindOf(s, t), s.clock, due) && IsMinInterval(s.rows, KindOf(s, t), minutes)))
    case Begin(t) => R.Live(s.reg, t) && s.loops[t].pc.Batch? && s.loops[t].pc.todo != []
    case End(t, _) => R.Live(s.reg, t) && s.loops[t].pc.Executing?
    case Wake(t) =>
      && R.Live(s.reg, t) && s.loops[t].pc.Sleeping?
      && s.clock >= s.loops[t].pc.round.endedAt + s.loops[t].pc.round.pause
    case Unwind(t) =>
      && t < |s.loops| && R.Enabled(s.reg, R.Finish(t))
      && (s.reg.tasks[t].cancelled || s.loops[t].pc.Stopping?)
    case Fire(t) => R.Enabled(s.reg, R.Fire(t))
    case Reboot(order) => IsBootOrder(s.kinds, s.rows, order)
  }

  function NewJob(now: int, jobType: string, minutes: int): Job {
    Job(jobType, Some(minutes), true, now, Never, None, None, 0)
  }

  /** `if updated.is_active: schedule_type(...)`, to be done after the commit. */
  function Promise(s: State, kind: string): seq<string> {
    if kind in s.kinds then s.pending + [kind] else s.pending
  }

  function PollStep(s: State, t: nat, due: seq<int>, minutes: int): Pc
    requires WellFormed(s) && Enabled(s, Poll(t, due, minutes))
  {
    if NoneScheduled(s.rows, KindOf(s, t)) then Stopping
    else Proceed(s.clock, Snapshots(s.rows, due), 60 * minutes, s.clock)
  }

  function Next(s: State, a: Action): State
    requires WellFormed(s) && Enabled(s, a)
  {
    match a
    case Tick(seconds) => s.(clock := s.clock + seconds)
    case Create(id, jobType, minutes) =>
      s.(rows := s.rows[id := NewJob(s.clock, jobType, minutes)],
         specs := s.specs[id := Spec(jobType, minutes)],
         pending := Promise(s, jobType))
    case Update(id, active) =>
      var row := s.rows[id].(active := if active.Some? then active.value else s.rows[id].active);
      s.(rows := s.rows[id := row],
         pending := if row.active then Promise(s, row.jobType) else s.pending)
    case Delete(id) => s.(rows := s.rows - {id})
    case Schedule(i) =>
      var kind := s.pending[i];
      s.(reg := R.RunTask(s.reg, kind),
         loops := s.loops + [NewLoop(s.kinds, kind)],
         pending := s.pending[..i] + s.pending[i + 1..])
    case Poll(t, due, minutes) => s.(loops := SetPc(s.loops, t, PollStep(s, t, due, minutes)))
    case Begin(t) =>
      var pc := s.loops[t].pc;
      s.(rows := MarkInProgress(s.rows, pc.todo[0].id),
         loops := SetPc(s.loops, t, Executing(pc.polledAt, pc.todo[0], s.clock, pc.todo[1..], pc.pause)))
    case End(t, error) =>
      var pc := s.loops[t].pc;
      s.(rows := Record(s.rows, pc.entry, Outcome(pc.start, error)),
         loops := SetPc(s.loops, t, Proceed(pc.polledAt, pc.rest, pc.pause, s.clock)),
         log := s.log + [Run(pc.entry.id, pc.start)])
    case Wake(t) => s.(loops := s.loops[t := Loop(Polling, Some(s.loops[t].pc.round))])
    case Unwind(t) => s.(reg := R.FinishTask(s.reg, t))
    case Fire(t) => s.(reg := R.FireCallback(s.reg, t))
    case Reboot(order) => Boot(s, order)
  }

  lemma StepWellFormed(s: State, a: Action)
    requires WellFormed(s) && Enabled(s, a)
    ensures WellFormed(Next(s, a))
  {
  }

  predicate Runs(s: State, acts: seq<Action>)
    decreases |acts|
  {
    acts == [] || (WellFormed(s) && Enabled(s, acts[0]) && Runs(Next(s, acts[0]), acts[1..]))
  }

  function After(s: State, acts: seq<Action>): State
    requires Runs(s, acts)
    decreases |acts|
  {
    if acts == [] then s else After(Next(s, acts[0]), acts[1..])
  }

  /** A table as the program may find it when its first process starts. */
  ghost predicate Initial(s: State) {
    && s.log == []
    && (forall id :: id in s.rows ==> id in s.specs && s.specs[id] == Spec(s.rows[id].jobType, Minutes(s.rows[id])))
  }

  // ------------------------------------------------------------------
  // The registry inside the scheduler
  // ------------------------------------------------------------------

  lemma {:induction false} StartAllEffect(order: seq<string>)
    requires Distinct(order)
    ensures var reg := StartAll(order);
            && R.Inv(reg) && R.Tidy(reg)
            && (forall i :: 0 <= i < |order| ==> reg.tasks[i] == R.Task(order[i], false, R.Running))
  {
    if order != [] {
      var front, key := order[..|order| - 1], order[|order| - 1];
      StartAllEffect(front);
      assert !R.Unfired(StartAll(front), key);
      R.CleanStep(StartAll(front), R.Run(key));
      assert key !in StartAll(front).registry;
    }
  }

  /** The registry's invariant holds in every run of the scheduler. */
  lemma StepRegistry(s: State, a: Action)
    requires WellFormed(s) && R.Inv(s.reg) && Enabled(s, a)
    ensures R.Inv(Next(s, a).reg)
  {
    match a
    case Schedule(i) => R.StepInv(s.reg, R.Run(s.pending[i]));
    case Unwind(t) => R.StepInv(s.reg, R.Finish(t));
    case Fire(t) => R.StepInv(s.reg, R.Fire(t));
    case Reboot(order) => StartAllEffect(order);
    case _ =>
  }
}
