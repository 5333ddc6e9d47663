/** What trampolines have in hand, and what the log and the rows say, in every run. */
module SchedulerHeld {
  import opened Wrappers
  import opened JobRows
  import opened Scheduler
  import R = TaskRegistry

  /** The entries a trampoline has read and not yet finished with. */
  function Held(pc: Pc): seq<Entry> {
    match pc
    case Batch(_, todo, _) => todo
    case Executing(_, entry, _, rest, _) => [entry] + rest
    case _ => []
  }

  /** The snapshot was due when it was read, and its job has the type of the trampoline. */
  predicate EntryOk(s: State, kind: string, entry: Entry) {
    && entry.id in s.specs && s.specs[entry.id] == Spec(kind, Minutes(entry.snap))
    && Scheduled(entry.snap) && entry.snap.nextRunAt <= s.clock
  }

  predicate HeldOk(s: State, t: nat)
    requires WellFormed(s) && R.Live(s.reg, t)
  {
    var pc := s.loops[t].pc;
    var held := Held(pc);
    && (forall i, k :: 0 <= i < k < |held| ==> held[i].id != held[k].id)
    && (forall i :: 0 <= i < |held| ==> EntryOk(s, KindOf(s, t), held[i]))
    && (pc.Executing? ==> pc.entry.snap.nextRunAt <= pc.start <= s.clock)
  }

  predicate Logged(s: State, i: int) {
    0 <= i < |s.log| && s.log[i].id in s.specs && s.log[i].start <= s.clock
  }

  predicate RowsMatch(s: State) {
    forall id :: id in s.rows ==> id in s.specs && s.specs[id] == Spec(s.rows[id].jobType, Minutes(s.rows[id]))
  }

  ghost predicate Sound(s: State) {
    && WellFormed(s) && RowsMatch(s)
    && (forall i :: 0 <= i < |s.log| ==> Logged(s, i))
    && (forall t: nat {:trigger R.Live(s.reg, t)} :: R.Live(s.reg, t) ==> HeldOk(s, t))
  }

  /** Jobs keep their type and interval for ever. */
  predicate KeepsSpecs(s: State, s': State) {
    s'.clock >= s.clock && forall id :: id in s.specs ==> id in s'.specs && s'.specs[id] == s.specs[id]
  }

  lemma StillHeld(s: State, s': State, t: nat)
    requires WellFormed(s) && WellFormed(s') && R.Live(s.reg, t) && R.Live(s'.reg, t) && KeepsSpecs(s, s')
    requires HeldOk(s, t) && KindOf(s', t) == KindOf(s, t) && s'.loops[t].pc == s.loops[t].pc
    ensures HeldOk(s', t)
  {
    forall i | 0 <= i < |Held(s'.loops[t].pc)|
      ensures EntryOk(s', KindOf(s', t), Held(s'.loops[t].pc)[i])
    {
      assert EntryOk(s, KindOf(s, t), Held(s.loops[t].pc)[i]);
    }
  }

  /** A step that logs nothing and lets live loops hold only what they held. */
  lemma QuietSound(s: State, s': State)
    requires Sound(s) && WellFormed(s') && RowsMatch(s') && KeepsSpecs(s, s') && s'.log == s.log
    requires forall t: nat {:trigger R.Live(s'.reg, t)} :: R.Live(s'.reg, t) ==>
               || Held(s'.loops[t].pc) == []
               || (R.Live(s.reg, t) && KindOf(s', t) == KindOf(s, t) && s'.loops[t].pc == s.loops[t].pc)
    ensures Sound(s')
  {
    forall i | 0 <= i < |s'.log| ensures Logged(s', i) {
      assert Logged(s, i);
    }
    forall t: nat | R.Live(s'.reg, t) ensures HeldOk(s', t) {
      if Held(s'.loops[t].pc) != [] {
        StillHeld(s, s', t);
      }
    }
  }

  lemma PollHolds(s: State, t: nat, due: seq<int>, minutes: int)
    requires Sound(s) && Enabled(s, Poll(t, due, minutes))
    ensures HeldOk(Next(s, Poll(t, due, minutes)), t)
  {
    var s', kind := Next(s, Poll(t, due, minutes)), KindOf(s, t);
    if !NoneScheduled(s.rows, kind) {
      var held := Snapshots(s.rows, due);
      assert Held(s'.loops[t].pc) == held;
      forall i | 0 <= i < |held| ensures EntryOk(s', kind, held[i]) {
        assert IsDue(s.rows, kind, s.clock, due[i]);
      }
    }
  }

  lemma PollSound(s: State, t: nat, due: seq<int>, minutes: int)
    requires Sound(s) && Enabled(s, Poll(t, due, minutes))
    ensures Sound(Next(s, Poll(t, due, minutes)))
  {
    var s' := Next(s, Poll(t, due, minutes));
    PollHolds(s, t, due, minutes);
    forall u: nat | R.Live(s'.reg, u) ensures HeldOk(s', u) {
      if u != t {
        StillHeld(s, s', u);
      }
    }
    forall i | 0 <= i < |s'.log| ensures Logged(s', i) {
      assert Logged(s, i);
    }
  }

  /** Beginning an execution only moves the first job in hand. */
  lemma BeginHolds(s: State, t: nat)
    requires Sound(s) && Enabled(s, Begin(t))
    ensures Held(Next(s, Begin(t)).loops[t].pc) == Held(s.loops[t].pc)
    ensures HeldOk(Next(s, Begin(t)), t)
  {
    var s', held := Next(s, Begin(t)), Held(s.loops[t].pc);
    assert HeldOk(s, t);
    assert Held(s'.loops[t].pc) == held;
    forall i | 0 <= i < |held| ensures EntryOk(s', KindOf(s', t), held[i]) {
      assert EntryOk(s, KindOf(s, t), held[i]);
    }
    assert EntryOk(s, KindOf(s, t), held[0]);
  }

  /** Finishing an execution drops it. */
  lemma EndHolds(s: State, t: nat, error: Option<string>)
    requires Sound(s) && Enabled(s, End(t, error))
    ensures Held(s.loops[t].pc) == [s.loops[t].pc.entry] + Held(Next(s, End(t, error)).loops[t].pc)
    ensures HeldOk(Next(s, End(t, error)), t)
  {
    var s', held, rest := Next(s, End(t, error)), Held(s.loops[t].pc), s.loops[t].pc.rest;
    assert HeldOk(s, t);
    assert Held(s'.loops[t].pc) == rest;
    forall i | 0 <= i < |rest| ensures EntryOk(s', KindOf(s', t), rest[i]) {
      assert rest[i] == held[i + 1] && EntryOk(s, KindOf(s, t), held[i + 1]);
    }
    forall i, k | 0 <= i < k < |rest| ensures rest[i].id != rest[k].id {
      assert rest[i] == held[i + 1] && rest[k] == held[k + 1];
    }
  }

  lemma TurnHolds(s: State, a: Action)
    requires Sound(s) && Enabled(s, a) && (a.Begin? || a.End?)
    ensures HeldOk(Next(s, a), a.t)
  {
    if a.Begin? {
      BeginHolds(s, a.t);
    } else {
      EndHolds(s, a.t, a.error);
    }
  }

  lemma TurnSound(s: State, a: Action)
    requires Sound(s) && Enabled(s, a) && (a.Begin? || a.End?)
    ensures Sound(Next(s, a))
  {
    var s' := Next(s, a);
    TurnHolds(s, a);
    forall u: nat | R.Live(s'.reg, u) ensures HeldOk(s', u) {
      if u != a.t {
        StillHeld(s, s', u);
      }
    }
    assert HeldOk(s, a.t);
    assert EntryOk(s, KindOf(s, a.t), Held(s.loops[a.t].pc)[0]);
    forall i | 0 <= i < |s'.log| ensures Logged(s', i) {
      assert i < |s.log| ==> Logged(s, i);
    }
  }

  /** A new process holds nothing, and no row is due earlier than before. */
  lemma BootHoldsNothing(s: State, order: seq<string>)
    requires WellFormed(s) && IsBootOrder(s.kinds, s.rows, order)
    ensures var s' := Boot(s, order);
            && WellFormed(s') && s'.log == s.log && s'.clock == s.clock && s'.specs == s.specs && s'.rows.Keys == s.rows.Keys
            && (forall t :: 0 <= t < |s'.loops| ==> Held(s'.loops[t].pc) == [])
            && (forall id :: id in s'.rows ==>
                  && s'.rows[id].nextRunAt >= s.rows[id].nextRunAt
                  && s'.rows[id].jobType == s.rows[id].jobType && Minutes(s'.rows[id]) == Minutes(s.rows[id]))
  {
  }

  lemma RebootSound(s: State, order: seq<string>)
    requires Sound(s) && Enabled(s, Reboot(order))
    ensures Sound(Boot(s, order))
  {
    BootHoldsNothing(s, order);
    var s' := Boot(s, order);
    forall t: nat | R.Live(s'.reg, t) ensures Held(s'.loops[t].pc) == [] {
    }
    QuietSound(s, s');
  }

  lemma FirstBootSound(s: State, order: seq<string>)
    requires WellFormed(s) && Initial(s) && IsBootOrder(s.kinds, s.rows, order)
    ensures Sound(Boot(s, order))
  {
    var s0 := s.(reg := R.Empty, loops := []);
    RebootSound(s0, order);
    assert Boot(s0, order) == Boot(s, order);
  }

  lemma ApiSound(s: State, a: Action)
    requires Sound(s) && Enabled(s, a) && (a.Create? || a.Update? || a.Delete?)
    ensures Sound(Next(s, a))
  {
    QuietSound(s, Next(s, a));
  }

  lemma TaskSound(s: State, a: Action)
    requires Sound(s) && Enabled(s, a) && (a.Schedule? || a.Unwind? || a.Fire?)
    ensures Sound(Next(s, a))
  {
    StepWellFormed(s, a);
    QuietSound(s, Next(s, a));
  }

  lemma TimeSound(s: State, a: Action)
    requires Sound(s) && Enabled(s, a) && (a.Tick? || a.Wake?)
    ensures Sound(Next(s, a))
  {
    QuietSound(s, Next(s, a));
  }

  /** Whatever is restarted, cancelled or orphaned: trampolines hold jobs of their own type only, each once. */
  lemma StepSound(s: State, a: Action)
    requires Sound(s) && Enabled(s, a)
    ensures Sound(Next(s, a))
  {
    var s' := Next(s, a);
    assert Sound(s') by {
      match a
      case Poll(t, due, minutes) => PollSound(s, t, due, minutes);
      case Begin(_) => TurnSound(s, a);
      case End(_, _) => TurnSound(s, a);
      case Reboot(order) => RebootSound(s, order); assert s' == Boot(s, order);
      case Tick(_) => TimeSound(s, a);
      case Wake(_) => TimeSound(s, a);
      case Schedule(_) => TaskSound(s, a);
      case Unwind(_) => TaskSound(s, a);
      case Fire(_) => TaskSound(s, a);
      case _ => ApiSound(s, a);
    }
  }

  /** From start-up on, in every run. */
  lemma AlwaysSound(s: State, order: seq<string>, acts: seq<Action>)
    requires WellFormed(s) && Initial(s) && IsBootOrder(s.kinds, s.rows, order) && Runs(Boot(s, order), acts)
    ensures Sound(After(Boot(s, order), acts))
  {
    FirstBootSound(s, order);
    RunSound(Boot(s, order), acts);
  }

  lemma {:induction false} RunSound(s: State, acts: seq<Action>)
    requires Sound(s) && Runs(s, acts)
    ensures Sound(After(s, acts))
    decreases |acts|
  {
    if acts != [] {
      StepSound(s, acts[0]);
      RunSound(Next(s, acts[0]), acts[1..]);
    }
  }
}
