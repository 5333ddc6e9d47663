/**
 The named-task registry `_tasks`.

 Tasks are numbered in creation order. A task runs until it finishes; a
 cancelled task takes no more steps of its own and then finishes. After it has
 finished, its done callback fires once and pops the task's KEY, whatever task
 the key names by then.
 */
module TaskRegistry {

  type Key = string

  datatype Phase = Running | Finished | Retired   // Retired: the done callback has fired

  datatype Task = Task(key: Key, cancelled: bool, phase: Phase)

  datatype State = State(registry: map<Key, nat>, tasks: seq<Task>)

  datatype Action = Run(key: Key) | Cancel(key: Key) | Finish(t: nat) | Fire(t: nat)

  const Empty := State(map[], [])

  // ------------------------------------------------------------------
  // Operations
  // ------------------------------------------------------------------

  predicate WellFormed(s: State) {
    forall k :: k in s.registry ==> s.registry[k] < |s.tasks|
  }

  function CancelTask(s: State, key: Key): State
    requires WellFormed(s)
  {
    if key !in s.registry then s
    else
      var t := s.registry[key];
      // Task.cancel() does nothing once the task has finished
      var task := s.tasks[t];
      State(s.registry - {key},
            s.tasks[t := task.(cancelled := task.cancelled || task.phase == Running)])
  }

  function RunTask(s: State, key: Key): State
    requires WellFormed(s)
  {
    var s1 := CancelTask(s, key);
    State(s1.registry[key := |s1.tasks|], s1.tasks + [Task(key, false, Running)])
  }

  function FinishTask(s: State, t: nat): State
    requires t < |s.tasks|
  {
    s.(tasks := s.tasks[t := s.tasks[t].(phase := Finished)])
  }

  /** `_tasks.pop(key, None)` */
  function FireCallback(s: State, t: nat): State
    requires t < |s.tasks|
  {
    State(s.registry - {s.tasks[t].key}, s.tasks[t := s.tasks[t].(phase := Retired)])
  }

  predicate Enabled(s: State, a: Action) {
    match a
    case Run(_) => true
    case Cancel(_) => true
    case Finish(t) => t < |s.tasks| && s.tasks[t].phase == Running
    case Fire(t) => t < |s.tasks| && s.tasks[t].phase == Finished
  }

  function Next(s: State, a: Action): State
    requires WellFormed(s) && Enabled(s, a)
  {
    match a
    case Run(key) => RunTask(s, key)
    case Cancel(key) => CancelTask(s, key)
    case Finish(t) => FinishTask(s, t)
    case Fire(t) => FireCallback(s, t)
  }

  // ------------------------------------------------------------------
  // What an entry means
  // ------------------------------------------------------------------

  predicate Live(s: State, t: nat) {
    t < |s.tasks| && s.tasks[t].phase == Running && !s.tasks[t].cancelled
  }

  /** An entry names the task last started under its key, never cancelled and not retired. */
  ghost predicate Inv(s: State) {
    && WellFormed(s)
    && (forall k :: k in s.registry ==>
          var t := s.registry[k];
          && s.tasks[t].key == k && !s.tasks[t].cancelled && s.tasks[t].phase != Retired
          && (forall u :: t < u < |s.tasks| ==> s.tasks[u].key != k))
  }

  lemma CancelInv(s: State, key: Key)
    requires Inv(s)
    ensures Inv(CancelTask(s, key)) && key !in CancelTask(s, key).registry
  {
  }

  lemma StartInv(s: State, key: Key)
    requires Inv(s)
    ensures Inv(RunTask(s, key))
  {
    CancelInv(s, key);
  }

  lemma FireInv(s: State, t: nat)
    requires Inv(s) && Enabled(s, Fire(t))
    ensures Inv(FireCallback(s, t))
  {
  }

  lemma StepInv(s: State, a: Action)
    requires Inv(s) && Enabled(s, a)
    ensures Inv(Next(s, a))
  {
    match a
    case Run(key) => StartInv(s, key);
    case Cancel(key) => CancelInv(s, key);
    case Finish(_) =>
    case Fire(t) => FireInv(s, t);
  }

  // ------------------------------------------------------------------
  // Orphans: live tasks the registry has forgotten
  // ------------------------------------------------------------------

  predicate Registered(s: State, t: nat)
    requires t < |s.tasks|
  {
    s.tasks[t].key in s.registry && s.registry[s.tasks[t].key] == t
  }

  ghost predicate NoOrphans(s: State) {
    forall t: nat {:trigger Live(s, t)} :: Live(s, t) ==> Registered(s, t)
  }

  ghost predicate OneLivePerKey(s: State) {
    forall t: nat, u: nat {:trigger Live(s, t), Live(s, u)} :: Live(s, t) && Live(s, u) && s.tasks[t].key == s.tasks[u].key ==> t == u
  }

  /** A task was started under this key whose callback has still to fire. */
  ghost predicate Unfired(s: State, key: Key) {
    exists t :: 0 <= t < |s.tasks| && s.tasks[t].key == key && s.tasks[t].phase != Retired
  }

  /** A start is clean when every earlier task of its key is out of the way. */
  ghost predicate Clean(s: State, a: Action) {
    a.Run? ==> !Unfired(s, a.key)
  }

  /** At most one task per key still has its callback to fire, and it is registered unless cancelled. */
  ghost predicate Tidy(s: State) {
    && (forall t, u :: 0 <= t < u < |s.tasks| && s.tasks[t].key == s.tasks[u].key ==> s.tasks[t].phase == Retired || s.tasks[u].phase == Retired)
    && (forall t :: 0 <= t < |s.tasks| && s.tasks[t].phase != Retired && !s.tasks[t].cancelled ==>
          s.tasks[t].phase == Finished || Registered(s, t))
  }

  lemma CancelTidy(s: State, key: Key)
    requires Inv(s) && Tidy(s)
    ensures Tidy(CancelTask(s, key))
  {
  }

  lemma StartTidy(s: State, key: Key)
    requires Inv(s) && Tidy(s) && !Unfired(s, key)
    ensures Tidy(RunTask(s, key))
  {
    assert key !in s.registry;
    var s' := RunTask(s, key);
    forall t | 0 <= t < |s'.tasks| && s'.tasks[t].phase != Retired && !s'.tasks[t].cancelled
      ensures s'.tasks[t].phase == Finished || Registered(s', t)
    {
      if t < |s.tasks| {
        assert s'.tasks[t] == s.tasks[t];
      }
    }
  }

  lemma CleanStep(s: State, a: Action)
    requires Inv(s) && Tidy(s) && Enabled(s, a) && Clean(s, a)
    ensures Inv(Next(s, a)) && Tidy(Next(s, a))
  {
    StepInv(s, a);
    match a
    case Run(key) => StartTidy(s, key);
    case Cancel(key) => CancelTidy(s, key);
    case Finish(t) =>
    case Fire(t) =>
  }

  lemma TidyMeansOneLive(s: State)
    requires Inv(s) && Tidy(s)
    ensures NoOrphans(s) && OneLivePerKey(s)
  {
    forall t: nat, u: nat | Live(s, t) && Live(s, u) && s.tasks[t].key == s.tasks[u].key
      ensures t == u
    {
      assert Registered(s, t) && Registered(s, u);
    }
  }

  predicate Runs(s: State, acts: seq<Action>)
    decreases |acts|
  {
    acts == [] || (WellFormed(s) && Enabled(s, acts[0]) && Runs(Next(s, acts[0]), acts[1..]))
  }

  function After(s: State, acts: seq<Action>): State
    requires Runs(s, acts)
    decreases |acts|
  {
    if acts == [] then s else After(Next(s, acts[0]), acts[1..])
  }

  ghost predicate AllClean(s: State, acts: seq<Action>)
    requires Runs(s, acts)
    decreases |acts|
  {
    acts == [] || (Clean(s, acts[0]) && AllClean(Next(s, acts[0]), acts[1..]))
  }

  /** Entries stay exact in every run, clean or not. */
  lemma {:induction false} RunInv(s: State, acts: seq<Action>)
    requires Inv(s) && Runs(s, acts)
    ensures Inv(After(s, acts))
    decreases |acts|
  {
    if acts != [] {
      StepInv(s, acts[0]);
      RunInv(Next(s, acts[0]), acts[1..]);
    }
  }

  /** In a run of clean starts no live task is ever lost and no key has two. */
  lemma {:induction false} CleanRun(s: State, acts: seq<Action>)
    requires Inv(s) && Tidy(s) && Runs(s, acts) && AllClean(s, acts)
    ensures var s' := After(s, acts); Inv(s') && Tidy(s') && NoOrphans(s') && OneLivePerKey(s')
    decreases |acts|
  {
    if acts == [] {
      TidyMeansOneLive(s);
    } else {
      CleanStep(s, acts[0]);
      CleanRun(Next(s, acts[0]), acts[1..]);
    }
  }

  /** Every continuation of s, itself cleanly started, keeps all live tasks registered. */
  ghost predicate StaysSafe(s: State) {
    forall acts :: Runs(s, acts) && AllClean(s, acts) ==> NoOrphans(After(s, acts))
  }

  /**
   A start is harmless exactly when it is clean: otherwise the earlier task's
   callback may fire next, and it unregisters the task just started.
   */
  lemma RestartSafeIff(s: State, key: Key)
    requires Inv(s) && Tidy(s)
    ensures StaysSafe(RunTask(s, key)) <==> !Unfired(s, key)
  {
    var s1 := RunTask(s, key);
    if !Unfired(s, key) {
      CleanStep(s, Run(key));
      forall acts | Runs(s1, acts) && AllClean(s1, acts)
        ensures NoOrphans(After(s1, acts))
      {
        CleanRun(s1, acts);
      }
    } else {
      var u :| 0 <= u < |s.tasks| && s.tasks[u].key == key && s.tasks[u].phase != Retired;
      LostToOldCallback(s, key, u);
    }
  }

  /** The continuation that loses the new task. */
  lemma LostToOldCallback(s: State, key: Key, u: nat)
    requires Inv(s) && u < |s.tasks| && s.tasks[u].key == key && s.tasks[u].phase != Retired
    ensures !StaysSafe(RunTask(s, key))
  {
    var s1 := RunTask(s, key);
    var fire := [Fire(u)];
    assert fire[1..] == [];
    if s1.tasks[u].phase == Finished {
      assert Runs(FireCallback(s1, u), []);
      assert Runs(s1, fire) && AllClean(s1, fire);
      assert After(s1, fire) == FireCallback(s1, u);
      assert Live(After(s1, fire), |s.tasks|);
    } else {
      var s2 := FinishTask(s1, u);
      var s3 := FireCallback(s2, u);
      var acts := [Finish(u), Fire(u)];
      assert acts[1..] == fire;
      assert Runs(s3, []) && Runs(s2, fire) && Runs(s1, acts);
      assert AllClean(s2, fire) && AllClean(s1, acts);
      assert After(s2, fire) == s3 && After(s1, acts) == s3;
      assert Live(s3, |s.tasks|);
    }
  }

  // ------------------------------------------------------------------
  // Shutdown
  // ------------------------------------------------------------------

  /** Cancel the keys one by one. */
  function CancelAll(s: State, keys: seq<Key>): State
    requires WellFormed(s)
    decreases |keys|
  {
    if keys == [] then s else CancelAll(CancelTask(s, keys[0]), keys[1..])
  }

  ghost predicate NothingLive(s: State) {
    forall t: nat {:trigger Live(s, t)} :: !Live(s, t)
  }

  lemma {:induction false} CancelAllEffect(s: State, keys: seq<Key>)
    requires Inv(s)
    ensures var s' := CancelAll(s, keys);
            && Inv(s') && |s'.tasks| == |s.tasks|
            && (forall k :: k in s'.registry <==> k in s.registry && k !in keys)
            && (forall t: nat {:trigger Live(s', t)} :: Live(s', t) <==>
                  Live(s, t) && !(Registered(s, t) && s.tasks[t].key in keys))
            && (forall t :: 0 <= t < |s.tasks| ==> s'.tasks[t].key == s.tasks[t].key)
            && (forall k :: k in s'.registry ==> s'.registry[k] == s.registry[k])
    decreases |keys|
  {
    if keys != [] {
      var s1 := CancelTask(s, keys[0]);
      StepInv(s, Cancel(keys[0]));
      CancelAllEffect(s1, keys[1..]);
      forall t: nat
        ensures Live(s1, t) <==> Live(s, t) && !(Registered(s, t) && s.tasks[t].key == keys[0])
      {
      }
    }
  }

  /** `shutdown` over all keys leaves nothing running exactly when nothing had been orphaned. */
  lemma ShutdownIff(s: State, keys: seq<Key>)
    requires Inv(s) && forall k :: k in keys <==> k in s.registry
    ensures NothingLive(CancelAll(s, keys)) <==> NoOrphans(s)
    ensures CancelAll(s, keys).registry == map[]
  {
    var s' := CancelAll(s, keys);
    CancelAllEffect(s, keys);
    if NothingLive(s') {
      forall t | Live(s, t)
        ensures Registered(s, t)
      {
        assert !Live(s', t);
      }
    } else {
      var t :| Live(s', t);
      assert Live(s, t);
    }
  }

  // ------------------------------------------------------------------
  // The module's functions, in place
  // ------------------------------------------------------------------

  class Registry {
    var registry: map<Key, nat>
    var tasks: seq<Task>

    ghost function View(): State
      reads this
    {
      State(registry, tasks)
    }

    constructor ()
      ensures View() == Empty
    {
      registry, tasks := map[], [];
    }

    method Cancel(key: Key)
      requires WellFormed(View())
      modifies this
      ensures View() == CancelTask(old(View()), key)
    {
      if key in registry {
        var t := registry[key];
        registry := registry - {key};
        if tasks[t].phase == Running {
          tasks := tasks[t := tasks[t].(cancelled := true)];
        }
      }
    }

    method Start(key: Key)
      requires WellFormed(View())
      modifies this
      ensures View() == RunTask(old(View()), key)
    {
      Cancel(key);
      tasks := tasks + [Task(key, false, Running)];
      registry := registry[key := |tasks| - 1];
    }

    /** The callback that `run_task` attaches. */
    method OnDone(t: nat)
      requires t < |tasks| && tasks[t].phase == Finished
      modifies this
      ensures View() == FireCallback(old(View()), t)
    {
      tasks := tasks[t := tasks[t].(phase := Retired)];
      registry := registry - {tasks[t].key};
    }

    /** `keys` is `list(_tasks)`. */
    method Shutdown(keys: seq<Key>)
      requires Inv(View()) && forall k :: k in keys <==> k in registry
      modifies this
      ensures View() == CancelAll(old(View()), keys)
      ensures registry == map[]
      ensures NothingLive(View()) <==> old(NoOrphans(View()))
    {
      ghost var before := View();
      var i := 0;
      while i < |keys|
        invariant i <= |keys| && WellFormed(View())
        invariant CancelAll(before, keys) == CancelAll(View(), keys[i..])
      {
        assert keys[i..][0] == keys[i] && keys[i..][1..] == keys[i + 1..];
        Cancel(keys[i]);
        i := i + 1;
      }
      ShutdownIff(before, keys);
    }
  }
}
