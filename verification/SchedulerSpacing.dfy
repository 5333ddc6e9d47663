/** Consecutive completed executions of a job start at least its interval apart. */
module SchedulerSpacing {
  import opened Wrappers
  import opened JobRows
  import opened Scheduler
  import opened SchedulerHeld
  import R = TaskRegistry

  /** A live trampoline that polls, sleeps or has jobs in hand: not a kernel one, and not about to return. */
  predicate Working(s: State, t: nat)
    requires WellFormed(s)
  {
    R.Live(s.reg, t) && (s.loops[t].pc.Polling? || s.loops[t].pc.Sleeping? || Held(s.loops[t].pc) != [])
  }

  /** At most one working trampoline of this type; other types may have any number. */
  ghost predicate Solo(s: State, kind: string)
    requires WellFormed(s)
  {
    forall t: nat, u: nat {:trigger Working(s, t), Working(s, u)} ::
      Working(s, t) && Working(s, u) && KindOf(s, t) == kind && KindOf(s, u) == kind ==> t == u
  }

  function Gap(s: State, id: int): int
    requires id in s.specs
  {
    60 * s.specs[id].minutes
  }

  /** The i-th execution was one of a job of this type. */
  predicate LoggedOf(s: State, kind: string, i: int) {
    Logged(s, i) && s.specs[s.log[i].id].jobType == kind
  }

  /** The row will not be due before the interval has passed since this execution started. */
  predicate RowRests(s: State, i: int)
    requires Logged(s, i)
  {
    s.log[i].id in s.rows ==> s.rows[s.log[i].id].nextRunAt >= s.log[i].start + Gap(s, s.log[i].id)
  }

  /** Every earlier execution of the job lies an interval before the time the snapshot was due. */
  ghost predicate EntryRests(s: State, entry: Entry)
    requires entry.id in s.specs
  {
    forall i :: 0 <= i < |s.log| && s.log[i].id == entry.id ==> s.log[i].start + Gap(s, entry.id) <= entry.snap.nextRunAt
  }

  ghost predicate HeldRests(s: State, t: nat)
    requires WellFormed(s) && R.Live(s.reg, t) && HeldOk(s, t)
  {
    forall i :: 0 <= i < |Held(s.loops[t].pc)| ==>
      EntryOk(s, KindOf(s, t), Held(s.loops[t].pc)[i]) && EntryRests(s, Held(s.loops[t].pc)[i])
  }

  ghost predicate Spaced(s: State, kind: string) {
    forall i, k :: 0 <= i < k < |s.log| && s.log[i].id == s.log[k].id && s.log[i].id in s.specs && s.specs[s.log[i].id].jobType == kind ==>
      s.log[k].start >= s.log[i].start + Gap(s, s.log[i].id)
  }

  ghost predicate Rested(s: State, kind: string)
    requires Sound(s)
  {
    && (forall i :: 0 <= i < |s.log| && LoggedOf(s, kind, i) ==> RowRests(s, i))
    && (forall t: nat {:trigger R.Live(s.reg, t)} :: R.Live(s.reg, t) && KindOf(s, t) == kind ==> HeldRests(s, t))
    && Spaced(s, kind)
  }

  ghost predicate Inv(s: State, kind: string) {
    Sound(s) && Rested(s, kind)
  }

  /** What a trampoline holds stays rested when nothing more is logged for its type. */
  lemma StillRests(s: State, s': State, t: nat)
    requires Sound(s) && Sound(s') && KeepsSpecs(s, s') && s'.log == s.log
    requires R.Live(s.reg, t) && R.Live(s'.reg, t) && KindOf(s', t) == KindOf(s, t) && HeldRests(s, t)
    requires Held(s'.loops[t].pc) == Held(s.loops[t].pc)
    ensures HeldRests(s', t)
  {
    assert HeldOk(s', t);
    forall i | 0 <= i < |Held(s.loops[t].pc)|
      ensures EntryOk(s', KindOf(s', t), Held(s.loops[t].pc)[i]) && EntryRests(s', Held(s.loops[t].pc)[i])
    {
      assert EntryOk(s, KindOf(s, t), Held(s.loops[t].pc)[i]) && EntryRests(s, Held(s.loops[t].pc)[i]);
    }
  }

  /** Without a new log entry, what was logged stays spaced and rested as long as no row is due earlier. */
  lemma LogRests(s: State, s': State, kind: string)
    requires Inv(s, kind) && Sound(s') && KeepsSpecs(s, s') && s'.log == s.log
    requires forall id :: id in s'.rows && id in s.specs && s.specs[id].jobType == kind ==>
               id in s.rows && s'.rows[id].nextRunAt >= s.rows[id].nextRunAt
    ensures forall i :: 0 <= i < |s'.log| && LoggedOf(s', kind, i) ==> RowRests(s', i)
    ensures Spaced(s', kind)
  {
    forall i | 0 <= i < |s'.log| && LoggedOf(s', kind, i) ensures RowRests(s', i) {
      assert Logged(s, i);
      assert LoggedOf(s, kind, i);
    }
    forall i, k | 0 <= i < k < |s'.log| && s'.log[i].id == s'.log[k].id && s'.log[i].id in s'.specs && s'.specs[s'.log[i].id].jobType == kind
      ensures s'.log[k].start >= s'.log[i].start + Gap(s', s'.log[i].id)
    {
      assert Logged(s, i);
    }
  }

  /** A step that logs nothing, lets no row be due earlier, and adds nothing to what live loops hold. */
  lemma QuietStep(s: State, s': State, kind: string)
    requires Inv(s, kind) && Sound(s') && KeepsSpecs(s, s') && s'.log == s.log
    requires forall id :: id in s'.rows && id in s.specs && s.specs[id].jobType == kind ==>
               id in s.rows && s'.rows[id].nextRunAt >= s.rows[id].nextRunAt
    requires forall t: nat {:trigger R.Live(s'.reg, t)} :: R.Live(s'.reg, t) && KindOf(s', t) == kind ==>
               || Held(s'.loops[t].pc) == []
               || (R.Live(s.reg, t) && KindOf(s, t) == kind && Held(s'.loops[t].pc) == Held(s.loops[t].pc))
    ensures Inv(s', kind)
  {
    LogRests(s, s', kind);
    forall t: nat | R.Live(s'.reg, t) && KindOf(s', t) == kind ensures HeldRests(s', t) {
      if Held(s'.loops[t].pc) != [] {
        StillRests(s, s', t);
      }
    }
  }

  /** What a poll takes in hand is rested, because its row was. */
  lemma PollRests(s: State, t: nat, due: seq<int>, minutes: int)
    requires WellFormed(s) && Enabled(s, Poll(t, due, minutes)) && Inv(s, KindOf(s, t)) && Sound(Next(s, Poll(t, due, minutes)))
    ensures HeldRests(Next(s, Poll(t, due, minutes)), t)
  {
    var s', kind := Next(s, Poll(t, due, minutes)), KindOf(s, t);
    assert HeldOk(s', t);
    if !NoneScheduled(s.rows, kind) {
      var held := Snapshots(s.rows, due);
      assert Held(s'.loops[t].pc) == held;
      forall i | 0 <= i < |held| ensures EntryOk(s', kind, held[i]) && EntryRests(s', held[i]) {
        assert IsDue(s.rows, kind, s.clock, due[i]);
        forall l | 0 <= l < |s.log| && s.log[l].id == held[i].id
          ensures s.log[l].start + Gap(s, held[i].id) <= held[i].snap.nextRunAt
        {
          assert Logged(s, l);
          assert LoggedOf(s, kind, l);
        }
      }
    }
  }

  lemma PollStep(s: State, t: nat, due: seq<int>, minutes: int, kind: string)
    requires Inv(s, kind) && Enabled(s, Poll(t, due, minutes))
    ensures Inv(Next(s, Poll(t, due, minutes)), kind)
  {
    var s' := Next(s, Poll(t, due, minutes));
    PollSound(s, t, due, minutes);
    LogRests(s, s', kind);
    forall u: nat | R.Live(s'.reg, u) && KindOf(s', u) == kind ensures HeldRests(s', u) {
      if u == t {
        PollRests(s, t, due, minutes);
      } else {
        StillRests(s, s', u);
      }
    }
  }

  lemma BeginStep(s: State, t: nat, kind: string)
    requires Inv(s, kind) && Enabled(s, Begin(t))
    ensures Inv(Next(s, Begin(t)), kind)
  {
    BeginHolds(s, t);
    TurnSound(s, Begin(t));
    QuietStep(s, Next(s, Begin(t)), kind);
  }

  /** With one working trampoline of the type, nobody else holds the job that has just finished. */
  lemma OthersDoNotHold(s: State, t: nat, u: nat, i: nat)
    requires Sound(s) && R.Live(s.reg, t) && R.Live(s.reg, u) && u != t && Solo(s, KindOf(s, u))
    requires s.loops[t].pc.Executing? && i < |Held(s.loops[u].pc)|
    ensures Held(s.loops[u].pc)[i].id != s.loops[t].pc.entry.id
  {
    assert HeldOk(s, t) && HeldOk(s, u);
    assert Working(s, t) && Working(s, u);
    assert Held(s.loops[t].pc)[0] == s.loops[t].pc.entry;
    assert EntryOk(s, KindOf(s, t), Held(s.loops[t].pc)[0]);
    assert EntryOk(s, KindOf(s, u), Held(s.loops[u].pc)[i]);
  }

  /** The job that trampoline t is executing, and what is known of it. */
  lemma Finishing(s: State, t: nat)
    requires Sound(s) && R.Live(s.reg, t) && s.loops[t].pc.Executing?
    ensures var pc := s.loops[t].pc;
            EntryOk(s, KindOf(s, t), pc.entry) && pc.entry.snap.nextRunAt <= pc.start <= s.clock
  {
    assert HeldOk(s, t) && Held(s.loops[t].pc)[0] == s.loops[t].pc.entry;
  }

  lemma EndHeld(s: State, t: nat, error: Option<string>, u: nat)
    requires WellFormed(s) && Enabled(s, End(t, error)) && R.Live(s.reg, u) && Inv(s, KindOf(s, u)) && Solo(s, KindOf(s, u))
    requires Sound(Next(s, End(t, error)))
    ensures HeldRests(Next(s, End(t, error)), u)
  {
    var s' := Next(s, End(t, error));
    var held, held' := Held(s.loops[u].pc), Held(s'.loops[u].pc);
    EndHolds(s, t, error);
    assert HeldOk(s, u) && HeldOk(s', u) && HeldRests(s, u);
    forall i | 0 <= i < |held'| ensures EntryOk(s', KindOf(s', u), held'[i]) && EntryRests(s', held'[i]) {
      var j := if u == t then i + 1 else i;
      assert held'[i] == held[j] && EntryOk(s, KindOf(s, u), held[j]) && EntryRests(s, held[j]);
      if u == t {
        assert held[0].id != held[j].id;
      } else {
        OthersDoNotHold(s, t, u, i);
      }
    }
  }

  /** The new log entry lies an interval after all earlier ones of the same job. */
  lemma EndSpaced(s: State, t: nat, error: Option<string>, kind: string)
    requires Inv(s, kind) && Enabled(s, End(t, error))
    ensures Spaced(Next(s, End(t, error)), kind)
  {
    var s', entry := Next(s, End(t, error)), s.loops[t].pc.entry;
    Finishing(s, t);
    assert KindOf(s, t) == kind ==> HeldRests(s, t) && EntryRests(s, Held(s.loops[t].pc)[0]);
    forall i, k | 0 <= i < k < |s'.log| && s'.log[i].id == s'.log[k].id && s'.log[i].id in s'.specs && s'.specs[s'.log[i].id].jobType == kind
      ensures s'.log[k].start >= s'.log[i].start + Gap(s', s'.log[i].id)
    {
      assert s'.log[i] == s.log[i];
    }
  }

  lemma EndRows(s: State, t: nat, error: Option<string>, kind: string, i: nat)
    requires Inv(s, kind) && Enabled(s, End(t, error)) && LoggedOf(Next(s, End(t, error)), kind, i)
    ensures RowRests(Next(s, End(t, error)), i)
  {
    Finishing(s, t);
    assert KindOf(s, t) == kind ==> HeldRests(s, t) && EntryRests(s, Held(s.loops[t].pc)[0]);
    if i < |s.log| {
      assert Logged(s, i);
      assert LoggedOf(s, kind, i) && RowRests(s, i);
    }
  }

  lemma EndStep(s: State, t: nat, error: Option<string>, kind: string)
    requires Inv(s, kind) && Enabled(s, End(t, error)) && Solo(s, kind)
    ensures Inv(Next(s, End(t, error)), kind)
  {
    var s' := Next(s, End(t, error));
    TurnSound(s, End(t, error));
    EndSpaced(s, t, error, kind);
    forall u: nat | R.Live(s'.reg, u) && KindOf(s', u) == kind ensures HeldRests(s', u) {
      EndHeld(s, t, error, u);
    }
    forall i | 0 <= i < |s'.log| && LoggedOf(s', kind, i) ensures RowRests(s', i) {
      EndRows(s, t, error, kind, i);
    }
  }

  lemma RebootStep(s: State, order: seq<string>, kind: string)
    requires Inv(s, kind) && Enabled(s, Reboot(order))
    ensures Inv(Boot(s, order), kind)
  {
    BootHoldsNothing(s, order);
    RebootSound(s, order);
    var s' := Boot(s, order);
    forall t: nat | R.Live(s'.reg, t) ensures Held(s'.loops[t].pc) == [] {
    }
    QuietStep(s, s', kind);
  }

  lemma FirstBoot(s: State, order: seq<string>, kind: string)
    requires WellFormed(s) && Initial(s) && IsBootOrder(s.kinds, s.rows, order)
    ensures Inv(Boot(s, order), kind)
  {
    FirstBootSound(s, order);
    BootHoldsNothing(s, order);
    var s' := Boot(s, order);
    forall t: nat | R.Live(s'.reg, t) ensures HeldRests(s', t) {
      assert HeldOk(s', t) && Held(s'.loops[t].pc) == [];
    }
  }

  /** API calls write no execution and touch no trampoline. */
  lemma ApiStep(s: State, a: Action, kind: string)
    requires Inv(s, kind) && Enabled(s, a) && (a.Create? || a.Update? || a.Delete?)
    ensures Inv(Next(s, a), kind)
  {
    ApiSound(s, a);
    QuietStep(s, Next(s, a), kind);
  }

  lemma TaskStep(s: State, a: Action, kind: string)
    requires Inv(s, kind) && Enabled(s, a) && (a.Schedule? || a.Unwind? || a.Fire?)
    ensures Inv(Next(s, a), kind)
  {
    TaskSound(s, a);
    QuietStep(s, Next(s, a), kind);
  }

  lemma TimeStep(s: State, a: Action, kind: string)
    requires Inv(s, kind) && Enabled(s, a) && (a.Tick? || a.Wake?)
    ensures Inv(Next(s, a), kind)
  {
    TimeSound(s, a);
    QuietStep(s, Next(s, a), kind);
  }

  /** Every step keeps finished executions of the type an interval apart and what is held consistent with them. */
  lemma StepSpacing(s: State, a: Action, kind: string)
    requires Inv(s, kind) && Enabled(s, a) && Solo(s, kind)
    ensures Inv(Next(s, a), kind)
  {
    var s' := Next(s, a);
    assert Inv(s', kind) by {
      match a
      case Poll(t, due, minutes) => PollStep(s, t, due, minutes, kind);
      case Begin(t) => BeginStep(s, t, kind);
      case End(t, error) => EndStep(s, t, error, kind);
      case Reboot(order) => RebootStep(s, order, kind); assert s' == Boot(s, order);
      case Tick(_) => TimeStep(s, a, kind);
      case Wake(_) => TimeStep(s, a, kind);
      case Schedule(_) => TaskStep(s, a, kind);
      case Unwind(_) => TaskStep(s, a, kind);
      case Fire(_) => TaskStep(s, a, kind);
      case _ => ApiStep(s, a, kind);
    }
  }

  /** Never two working trampolines of this type, in any state of the run. */
  ghost predicate AlwaysSolo(s: State, acts: seq<Action>, kind: string)
    requires WellFormed(s) && Runs(s, acts)
    decreases |acts|
  {
    Solo(s, kind) && (acts == [] || (StepWellFormed(s, acts[0]); AlwaysSolo(Next(s, acts[0]), acts[1..], kind)))
  }

  lemma {:induction false} RunSpacing(s: State, acts: seq<Action>, kind: string)
    requires Inv(s, kind) && Runs(s, acts) && AlwaysSolo(s, acts, kind)
    ensures Inv(After(s, acts), kind)
    decreases |acts|
  {
    if acts != [] {
      StepSpacing(s, acts[0], kind);
      RunSpacing(Next(s, acts[0]), acts[1..], kind);
    }
  }

  /**
   Across polls, executions, cancellations, restarts of trampolines and of the
   process: any two completed executions of a job start an interval apart, if
   its own type never has two working trampolines.
   */
  lemma Spacing(s: State, order: seq<string>, acts: seq<Action>, kind: string)
    requires WellFormed(s) && Initial(s) && IsBootOrder(s.kinds, s.rows, order)
    requires Runs(Boot(s, order), acts) && AlwaysSolo(Boot(s, order), acts, kind)
    ensures Spaced(After(Boot(s, order), acts), kind)
    ensures forall i :: 0 <= i < |After(Boot(s, order), acts).log| ==> Logged(After(Boot(s, order), acts), i)
  {
    FirstBoot(s, order, kind);
    RunSpacing(Boot(s, order), acts, kind);
  }
}
