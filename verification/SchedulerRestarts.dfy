/** Which restarts of a trampoline keep executions an interval apart. */
module SchedulerRestarts {
  import opened Wrappers
  import opened JobRows
  import opened Scheduler
  import opened SchedulerHeld
  import opened SchedulerSpacing
  import R = TaskRegistry

  // ------------------------------------------------------------------
  // The guard of a restart
  // ------------------------------------------------------------------

  /**
   When `schedule_type` is called for this type, every working trampoline of the
   type is the one the registry names, so that the call cancels it.
   */
  ghost predicate Guarded(s: State, a: Action, kind: string)
    requires WellFormed(s) && Enabled(s, a)
  {
    a.Schedule? && s.pending[a.i] == kind && !s.kinds[kind] ==>
      forall t: nat {:trigger Working(s, t)} :: Working(s, t) && KindOf(s, t) == kind ==> R.Registered(s.reg, t)
  }

  /** The restarts of this type are guarded; those of other types need not be. */
  ghost predicate GuardedRestarts(s: State, acts: seq<Action>, kind: string)
    requires WellFormed(s) && Runs(s, acts)
    decreases |acts|
  {
    acts == [] ||
    (Guarded(s, acts[0], kind) && (StepWellFormed(s, acts[0]); GuardedRestarts(Next(s, acts[0]), acts[1..], kind)))
  }

  /** What a restart does to another trampoline: only the registered one of the type stops. */
  lemma AfterRestart(s: State, i: nat, t: nat)
    requires WellFormed(s) && R.Inv(s.reg) && Enabled(s, Schedule(i)) && t < |s.loops|
    ensures var s' := Next(s, Schedule(i));
            && WellFormed(s') && s'.loops[t] == s.loops[t] && KindOf(s', t) == KindOf(s, t)
            && (Working(s', t) <==> Working(s, t) && !(KindOf(s, t) == s.pending[i] && R.Registered(s.reg, t)))
  {
  }

  lemma AddedByRestart(s: State, i: nat)
    requires WellFormed(s) && Enabled(s, Schedule(i))
    ensures var s', added := Next(s, Schedule(i)), |s.loops|;
            && WellFormed(s') && |s'.loops| == added + 1 && KindOf(s', added) == s.pending[i]
            && s'.loops[added] == NewLoop(s.kinds, s.pending[i]) && R.Live(s'.reg, added)
  {
  }

  lemma AfterRestarts(s: State, i: nat)
    requires WellFormed(s) && R.Inv(s.reg) && Enabled(s, Schedule(i))
    ensures var s' := Next(s, Schedule(i));
            && WellFormed(s')
            && forall t: nat {:trigger Working(s', t)} :: t < |s.loops| ==>
                 && KindOf(s', t) == KindOf(s, t)
                 && (Working(s', t) <==> Working(s, t) && !(KindOf(s, t) == s.pending[i] && R.Registered(s.reg, t)))
  {
    var s' := Next(s, Schedule(i));
    AddedByRestart(s, i);
    forall t: nat | t < |s.loops|
      ensures KindOf(s', t) == KindOf(s, t)
      ensures Working(s', t) <==> Working(s, t) && !(KindOf(s, t) == s.pending[i] && R.Registered(s.reg, t))
    {
      AfterRestart(s, i, t);
    }
  }

  /** A restart of any type leaves one working trampoline of this type exactly when it is guarded. */
  lemma RestartSoloIff(s: State, i: nat, kind: string)
    requires WellFormed(s) && R.Inv(s.reg) && Solo(s, kind) && Enabled(s, Schedule(i))
    ensures WellFormed(Next(s, Schedule(i)))
    ensures Solo(Next(s, Schedule(i)), kind) <==> Guarded(s, Schedule(i), kind)
  {
    var s', added := Next(s, Schedule(i)), |s.loops|;
    AddedByRestart(s, i);
    AfterRestarts(s, i);
    if Guarded(s, Schedule(i), kind) {
      forall t: nat, u: nat | Working(s', t) && Working(s', u) && KindOf(s', t) == kind && KindOf(s', u) == kind ensures t == u {
        assert t < added ==> Working(s, t);
        assert u < added ==> Working(s, u);
      }
    } else {
      var t: nat :| Working(s, t) && KindOf(s, t) == kind && !R.Registered(s.reg, t);
      assert Working(s', t) && Working(s', added);
    }
  }

  /** No step but a restart makes a second working trampoline. */
  lemma OtherStepsKeepSolo(s: State, a: Action, kind: string)
    requires WellFormed(s) && Solo(s, kind) && Enabled(s, a) && !a.Schedule?
    ensures WellFormed(Next(s, a)) && Solo(Next(s, a), kind)
  {
    var s' := Next(s, a);
    StepWellFormed(s, a);
    if a.Reboot? {
      BootIsSolo(s, a.order, kind);
    } else {
      forall t: nat | Working(s', t) ensures Working(s, t) && KindOf(s', t) == KindOf(s, t) {
      }
    }
  }

  lemma BootIsSolo(s: State, order: seq<string>, kind: string)
    requires WellFormed(s) && IsBootOrder(s.kinds, s.rows, order)
    ensures WellFormed(Boot(s, order)) && Solo(Boot(s, order), kind) && R.Inv(Boot(s, order).reg)
  {
    StartAllEffect(order);
    R.TidyMeansOneLive(StartAll(order));
  }

  /** A run keeps to one working trampoline of the type exactly when all restarts of that type are guarded. */
  lemma {:induction false} AlwaysSoloIff(s: State, acts: seq<Action>, kind: string)
    requires WellFormed(s) && R.Inv(s.reg) && Solo(s, kind) && Runs(s, acts)
    ensures AlwaysSolo(s, acts, kind) <==> GuardedRestarts(s, acts, kind)
    decreases |acts|
  {
    if acts != [] {
      var s' := Next(s, acts[0]);
      StepWellFormed(s, acts[0]);
      StepRegistry(s, acts[0]);
      if acts[0].Schedule? {
        RestartSoloIff(s, acts[0].i, kind);
      } else {
        OtherStepsKeepSolo(s, acts[0], kind);
      }
      if Solo(s', kind) {
        AlwaysSoloIff(s', acts[1..], kind);
      }
    }
  }

  /**
   From start-up on, the jobs of a type whose restarts are guarded are spaced,
   also when those cancel running trampolines, and whatever happens to other types.
   */
  lemma SpacingOfGuardedRestarts(s: State, order: seq<string>, acts: seq<Action>, kind: string)
    requires WellFormed(s) && Initial(s) && IsBootOrder(s.kinds, s.rows, order)
    requires Runs(Boot(s, order), acts) && GuardedRestarts(Boot(s, order), acts, kind)
    ensures Spaced(After(Boot(s, order), acts), kind)
  {
    BootIsSolo(s, order, kind);
    AlwaysSoloIff(Boot(s, order), acts, kind);
    Spacing(s, order, acts, kind);
  }

  // ------------------------------------------------------------------
  // Runs, put together
  // ------------------------------------------------------------------

  lemma Cons(s: State, a: Action, rest: seq<Action>)
    requires WellFormed(s) && Enabled(s, a) && Runs(Next(s, a), rest)
    ensures Runs(s, [a] + rest) && After(s, [a] + rest) == After(Next(s, a), rest)
  {
    assert ([a] + rest)[1..] == rest;
  }

  lemma {:induction false} Chain(s: State, acts: seq<Action>, more: seq<Action>)
    requires Runs(s, acts) && Runs(After(s, acts), more)
    ensures Runs(s, acts + more) && After(s, acts + more) == After(After(s, acts), more)
    decreases |acts|
  {
    if acts == [] {
      assert acts + more == more;
    } else {
      Chain(Next(s, acts[0]), acts[1..], more);
      Cons(s, acts[0], acts[1..] + more);
      assert acts + more == [acts[0]] + (acts[1..] + more);
    }
  }

  lemma Two(s: State, a: Action, b: Action)
    requires WellFormed(s) && Enabled(s, a) && Enabled(Next(s, a), b)
    ensures Runs(s, [a, b]) && After(s, [a, b]) == Next(Next(s, a), b)
  {
    StepWellFormed(s, a);
    Cons(Next(s, a), b, []);
    Cons(s, a, [b]);
    assert [a] + [b] == [a, b];
  }

  // ------------------------------------------------------------------
  // A trampoline that an unguarded restart leaves behind
  // ------------------------------------------------------------------

  predicate NoRestarts(acts: seq<Action>) {
    forall i :: 0 <= i < |acts| ==> !acts[i].Schedule?
  }

  lemma {:induction false} NoRestartsAreGuarded(s: State, acts: seq<Action>, kind: string)
    requires WellFormed(s) && Runs(s, acts) && NoRestarts(acts)
    ensures GuardedRestarts(s, acts, kind)
    decreases |acts|
  {
    if acts != [] {
      StepWellFormed(s, acts[0]);
      NoRestartsAreGuarded(Next(s, acts[0]), acts[1..], kind);
    }
  }

  /** What steps of trampoline t alone leave in place. */
  predicate Aside(s: State, s': State, t: nat) {
    && WellFormed(s') && s'.reg == s.reg && s'.kinds == s.kinds && s'.specs == s.specs
    && |s'.loops| == |s.loops| && (forall u :: 0 <= u < |s.loops| && u != t ==> s'.loops[u] == s.loops[u])
    && s.log <= s'.log
  }

  /** The job will be logged as started now, once everything in hand has been executed. */
  predicate StartsNow(pc: Pc, now: int, id: int) {
    match pc
    case Batch(_, todo, _) => exists k :: 0 <= k < |todo| && todo[k].id == id
    case Executing(_, entry, start, rest, _) =>
      (entry.id == id && start == now) || exists k :: 0 <= k < |rest| && rest[k].id == id
    case _ => false
  }

  predicate LoggedSince(log: seq<Run>, from: nat, run: Run) {
    exists j :: from <= j < |log| && log[j] == run
  }

  lemma BeginAside(s: State, t: nat, id: int)
    requires WellFormed(s) && R.Live(s.reg, t) && s.loops[t].pc.Batch? && s.loops[t].pc.todo != []
    ensures Enabled(s, Begin(t))
    ensures var s', pc' := Next(s, Begin(t)), Next(s, Begin(t)).loops[t].pc;
            && Aside(s, s', t) && s'.clock == s.clock && s'.log == s.log
            && pc'.Executing? && Held(pc') == Held(s.loops[t].pc)
            && (StartsNow(s.loops[t].pc, s.clock, id) ==> StartsNow(pc', s.clock, id))
  {
  }

  lemma EndAside(s: State, t: nat, id: int)
    requires WellFormed(s) && R.Live(s.reg, t) && s.loops[t].pc.Executing?
    ensures Enabled(s, End(t, None))
    ensures var s', pc := Next(s, End(t, None)), s.loops[t].pc;
            && Aside(s, s', t) && s'.clock == s.clock && s'.log == s.log + [Run(pc.entry.id, pc.start)]
            && (if pc.rest == [] then s'.loops[t].pc.Sleeping? else s'.loops[t].pc == Batch(pc.polledAt, pc.rest, pc.pause))
            && (StartsNow(pc, s.clock, id) ==> LoggedSince(s'.log, |s.log|, Run(id, s.clock)) || StartsNow(s'.loops[t].pc, s.clock, id))
  {
    var s', pc := Next(s, End(t, None)), s.loops[t].pc;
    assert s'.log[|s.log|] == Run(pc.entry.id, pc.start);
  }

  /** Without delay and without errors, a trampoline finishes its batch and goes to sleep. */
  lemma {:induction false} Drain(s: State, t: nat, id: int) returns (acts: seq<Action>)
    requires WellFormed(s) && R.Live(s.reg, t) && Held(s.loops[t].pc) != []
    ensures Runs(s, acts) && NoRestarts(acts)
    ensures var s' := After(s, acts);
            && Aside(s, s', t) && s'.clock == s.clock && s'.loops[t].pc.Sleeping?
            && (StartsNow(s.loops[t].pc, s.clock, id) ==> LoggedSince(s'.log, |s.log|, Run(id, s.clock)))
    decreases |Held(s.loops[t].pc)|, if s.loops[t].pc.Batch? then 1 else 0
  {
    var a := if s.loops[t].pc.Batch? then Begin(t) else End(t, None);
    var rest := [];
    if s.loops[t].pc.Batch? {
      BeginAside(s, t, id);
      rest := Drain(Next(s, a), t, id);
    } else {
      EndAside(s, t, id);
      if s.loops[t].pc.rest != [] {
        rest := Drain(Next(s, a), t, id);
      }
    }
    Cons(s, a, rest);
    acts := [a] + rest;
  }

  /** A working trampoline comes back to its poll. */
  lemma Return(s: State, t: nat) returns (acts: seq<Action>)
    requires WellFormed(s) && Working(s, t)
    ensures Runs(s, acts) && NoRestarts(acts)
    ensures Aside(s, After(s, acts), t) && After(s, acts).loops[t].pc.Polling?
  {
    if s.loops[t].pc.Polling? {
      acts := [];
    } else {
      var first := [];
      if Held(s.loops[t].pc) != [] {
        first := Drain(s, t, 0);
      }
      var s1 := After(s, first);
      var round := s1.loops[t].pc.round;
      var tick := Tick(if s1.clock < round.endedAt + round.pause then round.endedAt + round.pause - s1.clock else 0);
      Two(s1, tick, Wake(t));
      Chain(s, first, [tick, Wake(t)]);
      acts := first + [tick, Wake(t)];
    }
  }

  lemma Pick(ids: set<int>) returns (id: int)
    requires ids != {}
    ensures id in ids
  {
    assert (forall d :: d !in ids) ==> ids == {};
    id :| id in ids;
  }

  lemma {:induction false} ListOf(ids: set<int>) returns (list: seq<int>)
    ensures Distinct(list) && forall id :: id in list <==> id in ids
    decreases |ids|
  {
    if ids == {} {
      list := [];
    } else {
      var id := Pick(ids);
      var rest := ListOf(ids - {id});
      list := [id] + rest;
    }
  }

  lemma {:induction false} LeastOf(rows: Table, ids: set<int>) returns (least: int)
    requires ids != {} && ids <= rows.Keys
    ensures least in ids && forall id :: id in ids ==> Minutes(rows[least]) <= Minutes(rows[id])
    decreases |ids|
  {
    var id := Pick(ids);
    if ids == {id} {
      least := id;
    } else {
      least := LeastOf(rows, ids - {id});
      if Minutes(rows[id]) < Minutes(rows[least]) {
        least := id;
      }
    }
  }

  lemma {:induction false} FreshId(ids: set<int>) returns (bound: int)
    ensures forall id :: id in ids ==> id < bound
    decreases |ids|
  {
    if ids == {} {
      bound := 0;
    } else {
      var id := Pick(ids);
      bound := FreshId(ids - {id});
      assert forall x :: x in ids ==> x == id || x in ids - {id};
      if bound <= id {
        bound := id + 1;
      }
    }
  }

  /** What the database can answer to a poll when some job is due. */
  lemma PollAnswer(rows: Table, kind: string, now: int, id: int) returns (due: seq<int>, minutes: int)
    requires IsDue(rows, kind, now, id)
    ensures IsDueList(rows, kind, now, due) && IsMinInterval(rows, kind, minutes) && id in due
  {
    due := ListOf(set j | j in rows && IsDue(rows, kind, now, j));
    forall i | 0 <= i < |due| ensures IsDue(rows, kind, now, due[i]) {
      assert due[i] in due;
    }
    var scheduled := set j | j in rows && IsScheduled(rows, kind, j);
    assert id in scheduled;
    var least := LeastOf(rows, scheduled);
    minutes := Minutes(rows[least]);
  }

  /** A poll that finds the job due takes it in hand. */
  lemma PollTakes(s: State, t: nat, due: seq<int>, minutes: int, id: int)
    requires WellFormed(s) && R.Live(s.reg, t) && s.loops[t].pc.Polling? && id in due
    requires IsDueList(s.rows, KindOf(s, t), s.clock, due) && IsMinInterval(s.rows, KindOf(s, t), minutes)
    ensures Enabled(s, Poll(t, due, minutes))
    ensures var s' := Next(s, Poll(t, due, minutes));
            && s' == s.(loops := s'.loops) && Aside(s, s', t)
            && Held(s'.loops[t].pc) != [] && StartsNow(s'.loops[t].pc, s.clock, id)
  {
    var i :| 0 <= i < |due| && due[i] == id;
    assert IsDue(s.rows, KindOf(s, t), s.clock, due[i]);
    assert Snapshots(s.rows, due)[i].id == id;
  }

  /** Two executions of one job that start at the same moment are not spaced. */
  lemma SameStart(s: State, from: nat, to: nat, id: int, kind: string)
    requires from <= to <= |s.log| && id in s.specs && s.specs[id].minutes > 0 && s.specs[id].jobType == kind
    requires LoggedSince(s.log[..to], from, Run(id, s.clock)) && LoggedSince(s.log, to, Run(id, s.clock))
    ensures !Spaced(s, kind)
  {
    var i :| from <= i < to && s.log[..to][i] == Run(id, s.clock);
    var k :| to <= k < |s.log| && s.log[k] == Run(id, s.clock);
    assert s.log[i] == Run(id, s.clock);
  }

  /** Both trampolines hold the job: each executes it now. */
  lemma BothExecute(s: State, t: nat, u: nat, id: int, kind: string) returns (acts: seq<Action>)
    requires WellFormed(s) && R.Live(s.reg, t) && R.Live(s.reg, u) && t != u
    requires Held(s.loops[t].pc) != [] && StartsNow(s.loops[t].pc, s.clock, id)
    requires Held(s.loops[u].pc) != [] && StartsNow(s.loops[u].pc, s.clock, id)
    requires id in s.specs && s.specs[id].minutes > 0 && s.specs[id].jobType == kind
    ensures Runs(s, acts) && NoRestarts(acts) && !Spaced(After(s, acts), kind)
  {
    var one := Drain(s, t, id);
    var s1 := After(s, one);
    var two := Drain(s1, u, id);
    Chain(s, one, two);
    acts := one + two;
    var s2 := After(s, acts);
    assert s2.log[..|s1.log|] == s1.log;
    SameStart(s2, |s.log|, |s1.log|, id, kind);
  }

  /** Two trampolines of a type poll at the same moment: a due job is executed by both. */
  lemma BothPoll(s: State, t: nat, u: nat, id: int) returns (acts: seq<Action>)
    requires WellFormed(s) && R.Live(s.reg, t) && R.Live(s.reg, u) && t != u && KindOf(s, t) == KindOf(s, u)
    requires s.loops[t].pc.Polling? && s.loops[u].pc.Polling? && IsDue(s.rows, KindOf(s, t), s.clock, id)
    requires id in s.specs && s.specs[id].minutes > 0 && s.specs[id].jobType == KindOf(s, t)
    ensures Runs(s, acts) && NoRestarts(acts) && !Spaced(After(s, acts), KindOf(s, t))
  {
    var due, minutes := PollAnswer(s.rows, KindOf(s, t), s.clock, id);
    var polls := [Poll(t, due, minutes), Poll(u, due, minutes)];
    PollTakes(s, t, due, minutes, id);
    PollTakes(Next(s, polls[0]), u, due, minutes, id);
    Two(s, polls[0], polls[1]);
    var rest := BothExecute(After(s, polls), t, u, id, KindOf(s, t));
    Chain(s, polls, rest);
    acts := polls + rest;
  }

  /** A job created while two trampolines of its type wait to poll is executed by both. */
  lemma CreateForBoth(s: State, t: nat, u: nat) returns (acts: seq<Action>)
    requires WellFormed(s) && R.Live(s.reg, t) && R.Live(s.reg, u) && t != u && KindOf(s, t) == KindOf(s, u)
    requires s.loops[t].pc.Polling? && s.loops[u].pc.Polling? && KindOf(s, t) in s.kinds && !s.kinds[KindOf(s, t)]
    ensures Runs(s, acts) && NoRestarts(acts) && !Spaced(After(s, acts), KindOf(s, t))
  {
    var id := FreshId(s.specs.Keys);
    var create := Create(id, KindOf(s, t), 60);
    StepWellFormed(s, create);
    var rest := BothPoll(Next(s, create), t, u, id);
    Cons(s, create, rest);
    acts := [create] + rest;
  }

  /** A restart that does not cancel a working trampoline of its type lets some job run twice at once. */
  lemma OrphanBreaksSpacing(s: State, i: nat, t: nat) returns (acts: seq<Action>)
    requires WellFormed(s) && R.Inv(s.reg) && Enabled(s, Schedule(i)) && !s.kinds[s.pending[i]]
    requires Working(s, t) && KindOf(s, t) == s.pending[i] && !R.Registered(s.reg, t)
    ensures var s' := Next(s, Schedule(i));
            WellFormed(s') && Runs(s', acts) && NoRestarts(acts) && !Spaced(After(s', acts), s.pending[i])
  {
    var s', added := Next(s, Schedule(i)), |s.loops|;
    AfterRestart(s, i, t);
    AddedByRestart(s, i);
    var first := Return(s', t);
    var rest := CreateForBoth(After(s', first), t, added);
    Chain(s', first, rest);
    acts := first + rest;
  }

  /** Whatever follows, with guarded restarts of this type, its jobs are spaced. */
  ghost predicate StaysSpaced(s: State, kind: string)
    requires WellFormed(s)
  {
    forall acts :: Runs(s, acts) && GuardedRestarts(s, acts, kind) ==> Spaced(After(s, acts), kind)
  }

  /**
   A restart keeps the executions of its type an interval apart exactly when it
   is guarded; the other types may be in any state.
   */
  lemma RestartSpacingIff(s: State, i: nat, kind: string)
    requires Inv(s, kind) && R.Inv(s.reg) && Solo(s, kind) && Enabled(s, Schedule(i))
    ensures WellFormed(Next(s, Schedule(i)))
    ensures StaysSpaced(Next(s, Schedule(i)), kind) <==> Guarded(s, Schedule(i), kind)
  {
    var s' := Next(s, Schedule(i));
    StepSpacing(s, Schedule(i), kind);
    StepRegistry(s, Schedule(i));
    RestartSoloIff(s, i, kind);
    if Guarded(s, Schedule(i), kind) {
      forall acts | Runs(s', acts) && GuardedRestarts(s', acts, kind) ensures Spaced(After(s', acts), kind) {
        AlwaysSoloIff(s', acts, kind);
        RunSpacing(s', acts, kind);
      }
    } else {
      var t: nat :| Working(s, t) && KindOf(s, t) == kind && !R.Registered(s.reg, t);
      var acts := OrphanBreaksSpacing(s, i, t);
      NoRestartsAreGuarded(s', acts, kind);
    }
  }

  // ------------------------------------------------------------------
  // Such a restart is reachable
  // ------------------------------------------------------------------

  /** One hourly job, due at once, just after start-up. */
  const Hourly := Job("crawl", Some(60), true, 0, Never, None, None, 0)
  const Fresh := State(0, map["crawl" := false], map[7 := Hourly], R.Empty, [], [], map[7 := Spec("crawl", 60)], [])

  /** The job is untouched, and these are the tasks and the registry. */
  ghost predicate Stage(s: State, registry: map<string, nat>, tasks: seq<R.Task>) {
    && s.reg == R.State(registry, tasks)
    && s == Fresh.(reg := s.reg, loops := seq(|tasks|, _ => Loop(Polling, None)))
  }

  const Alive := R.Task("crawl", false, R.Running)
  const Dying := R.Task("crawl", true, R.Running)
  const Gone := R.Task("crawl", true, R.Retired)

  lemma Renamed(s: State)
    requires WellFormed(s) && s.rows == Fresh.rows && s.kinds == Fresh.kinds && s.pending == []
    ensures Enabled(s, Update(7, None)) && Next(s, Update(7, None)) == s.(pending := ["crawl"])
  {
    assert Next(s, Update(7, None)).rows == s.rows;
  }

  /** An API call renames the active job, and then restarts its trampoline. */
  lemma Rename(s: State, registry: map<string, nat>, tasks: seq<R.Task>)
    requires Stage(s, registry, tasks) && R.WellFormed(s.reg)
    ensures var acts := [Update(7, None), Schedule(0)];
            && Runs(s, acts)
            && After(s, acts).reg == R.RunTask(s.reg, "crawl")
            && Stage(After(s, acts), After(s, acts).reg.registry, After(s, acts).reg.tasks)
  {
    Renamed(s);
    var s1 := s.(pending := ["crawl"]);
    Two(s, Update(7, None), Schedule(0));
    var s2 := Next(s1, Schedule(0));
    assert s2.pending == [];
    assert s2.loops == seq(|tasks| + 1, _ => Loop(Polling, None));
  }

  lemma Booted()
    ensures Stage(Boot(Fresh, ["crawl"]), map["crawl" := 0], [Alive])
  {
    var s0 := Boot(Fresh, ["crawl"]);
    assert s0.rows == Fresh.rows;
    assert StartAll(["crawl"][..0]) == R.Empty;
    assert s0.reg == R.State(map["crawl" := 0], [Alive]);
    assert s0.loops == seq(1, _ => Loop(Polling, None));
  }

  lemma Replaced(s: State)
    requires Stage(s, map["crawl" := 0], [Alive])
    ensures Stage(After(s, [Update(7, None), Schedule(0)]), map["crawl" := 1], [Dying, Alive])
  {
    Rename(s, map["crawl" := 0], [Alive]);
    assert R.RunTask(s.reg, "crawl") == R.State(map["crawl" := 1], [Dying, Alive]);
  }

  lemma Forgotten(s: State)
    requires Stage(s, map["crawl" := 1], [Dying, Alive])
    ensures Runs(s, [Unwind(0), Fire(0)])
    ensures Stage(After(s, [Unwind(0), Fire(0)]), map[], [Gone, Alive])
  {
    Two(s, Unwind(0), Fire(0));
    assert Next(Next(s, Unwind(0)), Fire(0)).reg == R.State(map[], [Gone, Alive]);
  }

  lemma ForgottenRun()
    ensures exists acts :: Runs(Boot(Fresh, ["crawl"]), acts) &&
              Stage(After(Boot(Fresh, ["crawl"]), acts), map[], [Gone, Alive])
  {
    var s0 := Boot(Fresh, ["crawl"]);
    Booted();
    Rename(s0, map["crawl" := 0], [Alive]);
    Replaced(s0);
    Forgotten(After(s0, [Update(7, None), Schedule(0)]));
    Chain(s0, [Update(7, None), Schedule(0)], [Unwind(0), Fire(0)]);
  }

  /** The registry has forgotten a polling trampoline, and an API call restarts its type. */
  lemma RestartForgotten(s: State) returns (acts: seq<Action>)
    requires Stage(s, map[], [Gone, Alive])
    ensures Runs(s, acts) && !Spaced(After(s, acts), "crawl")
  {
    Renamed(s);
    var s1 := s.(pending := ["crawl"]);
    var rest := OrphanBreaksSpacing(s1, 0, 1);
    Cons(s1, Schedule(0), rest);
    Cons(s, Update(7, None), [Schedule(0)] + rest);
    acts := [Update(7, None)] + ([Schedule(0)] + rest);
  }

  /**
   From start-up: the first trampoline is replaced, finishes late, and its callback
   drops its successor from the registry; the next restart does not cancel that one.
   */
  lemma SecondRestartBreaksSpacing()
    ensures exists acts :: Runs(Boot(Fresh, ["crawl"]), acts) && !Spaced(After(Boot(Fresh, ["crawl"]), acts), "crawl")
  {
    ForgottenRun();
    var s0 := Boot(Fresh, ["crawl"]);
    var acts :| Runs(s0, acts) && Stage(After(s0, acts), map[], [Gone, Alive]);
    var rest := RestartForgotten(After(s0, acts));
    Chain(s0, acts, rest);
  }
}
