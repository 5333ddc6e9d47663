/** The ledger under interleaved requests. */
module LedgerRuns {
  import opened Wrappers
  import opened Sums
  import opened Ledger

  /** A request that has read its row and has still to commit. */
  datatype Op =
    | UpdatingCost(id: int, cost: Cost, costPatch: CostPatch)
    | UpdatingIncome(id: int, income: Income, incomePatch: IncomePatch)
    | DeletingCost(id: int, cost: Cost)
    | DeletingIncome(id: int, income: Income)
    | DeletingExchange(id: int, exchange: Exchange)

  datatype Target = CostRow(id: int) | IncomeRow(id: int) | ExchangeRow(id: int)

  /** `opening` is the equity each currency was created with. */
  datatype State = State(t: Tables, opening: map<int, int>, pending: map<int, Op>)

  datatype Action =
    | NewCurrency(c: int)
    | DropCurrency(c: int)
    | NewCost(id: int, cost: Cost)
    | NewIncome(id: int, income: Income)
    | NewExchange(id: int, exchange: Exchange)
    | ReadToUpdateCost(op: int, id: int, costPatch: CostPatch)
    | ReadToUpdateIncome(op: int, id: int, incomePatch: IncomePatch)
    | ReadToDelete(op: int, target: Target)
    | Commit(op: int)

  // ------------------------------------------------------------------
  // Steps
  // ------------------------------------------------------------------

  /** Row ids come from sequences, so a new row's id is not in use; reads happen only once. */
  predicate Enabled(s: State, a: Action) {
    match a
    case NewCurrency(c) => c !in s.t.equity
    case DropCurrency(c) => c in s.t.equity
    case NewCost(id, _) => id !in s.t.costs
    case NewIncome(id, _) => id !in s.t.incomes
    case NewExchange(id, _) => id !in s.t.exchanges
    case ReadToUpdateCost(op, _, _) => op !in s.pending
    case ReadToUpdateIncome(op, _, _) => op !in s.pending
    case ReadToDelete(op, _) => op !in s.pending
    case Commit(op) => op in s.pending
  }

  /** A failed transaction leaves the tables as they were. */
  function OrElse(t: Tables, r: Result<Tables, Error>): Tables {
    if r.Success? then r.value else t
  }

  function CommitOp(t: Tables, op: Op): Result<Tables, Error> {
    match op
    case UpdatingCost(id, row, patch) => CommitUpdateCost(t, id, row, patch)
    case UpdatingIncome(id, row, patch) => CommitUpdateIncome(t, id, row, patch)
    case DeletingCost(id, row) => Success(CommitDeleteCost(t, id, row))
    case DeletingIncome(id, row) => Success(CommitDeleteIncome(t, id, row))
    case DeletingExchange(id, row) => Success(CommitDeleteExchange(t, id, row))
  }

  /** The read phase: a missing row or an update that changes nothing ends the request. */
  function ReadOp(t: Tables, a: Action): Option<Op>
    requires a.ReadToUpdateCost? || a.ReadToUpdateIncome? || a.ReadToDelete?
  {
    match a
    case ReadToUpdateCost(_, id, patch) =>
      if id !in t.costs || DedupCost(t.costs[id], patch) == EmptyCostPatch then None
      else Some(UpdatingCost(id, t.costs[id], DedupCost(t.costs[id], patch)))
    case ReadToUpdateIncome(_, id, patch) =>
      if id !in t.incomes || DedupIncome(t.incomes[id], patch) == EmptyIncomePatch then None
      else Some(UpdatingIncome(id, t.incomes[id], DedupIncome(t.incomes[id], patch)))
    case ReadToDelete(_, CostRow(id)) => if id in t.costs then Some(DeletingCost(id, t.costs[id])) else None
    case ReadToDelete(_, IncomeRow(id)) => if id in t.incomes then Some(DeletingIncome(id, t.incomes[id])) else None
    case ReadToDelete(_, ExchangeRow(id)) => if id in t.exchanges then Some(DeletingExchange(id, t.exchanges[id])) else None
  }

  function Next(s: State, a: Action): State
    requires Enabled(s, a)
  {
    match a
    case NewCurrency(c) => s.(t := s.t.(equity := s.t.equity[c := 0]), opening := s.opening[c := 0])
    case DropCurrency(c) =>
      if DeleteCurrency(s.t, c).Success? then s.(t := DeleteCurrency(s.t, c).value, opening := s.opening - {c}) else s
    case NewCost(id, row) => s.(t := OrElse(s.t, AddCost(s.t, id, row)))
    case NewIncome(id, row) => s.(t := OrElse(s.t, AddIncome(s.t, id, row)))
    case NewExchange(id, row) => s.(t := OrElse(s.t, AddExchange(s.t, id, row)))
    case Commit(op) => s.(t := OrElse(s.t, CommitOp(s.t, s.pending[op])), pending := s.pending - {op})
    case _ => if ReadOp(s.t, a).Some? then s.(pending := s.pending[a.op := ReadOp(s.t, a).value]) else s
  }

  predicate Runs(s: State, acts: seq<Action>)
    decreases |acts|
  {
    acts == [] || (Enabled(s, acts[0]) && Runs(Next(s, acts[0]), acts[1..]))
  }

  function After(s: State, acts: seq<Action>): State
    requires Runs(s, acts)
    decreases |acts|
  {
    if acts == [] then s else After(Next(s, acts[0]), acts[1..])
  }

  // ------------------------------------------------------------------
  // Every interleaving: the gap moves by the staleness of each commit
  // ------------------------------------------------------------------

  ghost predicate Consistent(s: State) {
    ForeignKeys(s.t) && s.opening.Keys == s.t.equity.Keys
  }

  ghost function GapOf(s: State, c: int): int
    requires Consistent(s) && c in s.t.equity
  {
    Gap(s.t, s.opening[c], c)
  }

  /** What the commit does to equity, computed from the row as it was read. */
  function SnapshotEffect(op: Op, c: int): int {
    match op
    case UpdatingCost(_, row, patch) => CostShift(row, patch, c)
    case UpdatingIncome(_, row, patch) => IncomeShift(row, patch, c)
    case DeletingCost(_, row) => -CostEffect(row, c)
    case DeletingIncome(_, row) => -IncomeEffect(row, c)
    case DeletingExchange(_, row) => -ExchangeEffect(row, c)
  }

  /** What the commit does to the rows' balance, given the row as it is now. */
  function CurrentEffect(t: Tables, op: Op, c: int): int {
    match op
    case UpdatingCost(id, _, patch) => if id in t.costs then CostShift(t.costs[id], patch, c) else 0
    case UpdatingIncome(id, _, patch) => if id in t.incomes then IncomeShift(t.incomes[id], patch, c) else 0
    case DeletingCost(id, _) => if id in t.costs then -CostEffect(t.costs[id], c) else 0
    case DeletingIncome(id, _) => if id in t.incomes then -IncomeEffect(t.incomes[id], c) else 0
    case DeletingExchange(id, _) => if id in t.exchanges then -ExchangeEffect(t.exchanges[id], c) else 0
  }

  function Drift(s: State, a: Action, c: int): int
    requires Enabled(s, a)
  {
    if a.Commit? && CommitOp(s.t, s.pending[a.op]).Success?
    then SnapshotEffect(s.pending[a.op], c) - CurrentEffect(s.t, s.pending[a.op], c)
    else 0
  }

  lemma CommitUpdateConsistent(t: Tables, op: Op)
    requires ForeignKeys(t) && (op.UpdatingCost? || op.UpdatingIncome?)
    ensures var t' := OrElse(t, CommitOp(t, op));
            ForeignKeys(t') && t'.equity.Keys == t.equity.Keys
  {
    if op.UpdatingCost? { ShiftForCostIs(t.equity, op.cost, op.costPatch, 0); }
    if op.UpdatingIncome? { ShiftForIncomeIs(t.equity, op.income, op.incomePatch, 0); }
  }

  lemma CommitConsistent(t: Tables, op: Op)
    requires ForeignKeys(t)
    ensures var t' := OrElse(t, CommitOp(t, op));
            ForeignKeys(t') && t'.equity.Keys == t.equity.Keys
  {
    if op.UpdatingCost? || op.UpdatingIncome? {
      CommitUpdateConsistent(t, op);
    }
  }

  lemma StepConsistent(s: State, a: Action)
    requires Consistent(s) && Enabled(s, a)
    ensures Consistent(Next(s, a))
  {
    if a.Commit? {
      CommitConsistent(s.t, s.pending[a.op]);
    }
  }

  lemma CommitGap(t: Tables, op: Op, c: int)
    requires c in t.equity && CommitOp(t, op).Success?
    ensures c in CommitOp(t, op).value.equity
    ensures Gap(CommitOp(t, op).value, 0, c) == Gap(t, 0, c) + SnapshotEffect(op, c) - CurrentEffect(t, op, c)
  {
    match op
    case UpdatingCost(id, row, patch) => UpdateCostGap(t, id, row, patch, c);
    case UpdatingIncome(id, row, patch) => UpdateIncomeGap(t, id, row, patch, c);
    case DeletingCost(id, row) => DeleteCostGap(t, id, row, c);
    case DeletingIncome(id, row) => DeleteIncomeGap(t, id, row, c);
    case DeletingExchange(id, row) => DeleteExchangeGap(t, id, row, c);
  }

  /** A currency nobody has used yet has an empty balance. */
  lemma UnusedBalance(t: Tables, c: int)
    requires ForeignKeys(t) && c !in t.equity
    ensures Balance(t, c) == 0
  {
    forall id | id in t.costs ensures CostTerm(c)(t.costs[id]) == 0 {
      assert t.costs[id].currency in t.equity;
    }
    forall id | id in t.incomes ensures IncomeTerm(c)(t.incomes[id]) == 0 {
      assert t.incomes[id].currency in t.equity;
    }
    forall id | id in t.exchanges ensures ExchangeTerm(c)(t.exchanges[id]) == 0 {
      assert t.exchanges[id].fromCurrency in t.equity && t.exchanges[id].toCurrency in t.equity;
    }
    SumZero(t.costs, CostTerm(c));
    SumZero(t.incomes, IncomeTerm(c));
    SumZero(t.exchanges, ExchangeTerm(c));
  }

  /**
   In every interleaving, each step moves the gap between a currency's equity
   and its rows by exactly the effect computed from the row as read minus the
   effect on the row as it is; only commits move it.
   */
  lemma StepGap(s: State, a: Action, c: int)
    requires Consistent(s) && Enabled(s, a) && c in Next(s, a).t.equity
    ensures Consistent(Next(s, a))
    ensures c in s.t.equity ==> GapOf(Next(s, a), c) == GapOf(s, c) + Drift(s, a, c)
    ensures c !in s.t.equity ==> GapOf(Next(s, a), c) == 0
  {
    StepConsistent(s, a);
    match a
    case NewCurrency(d) => if c == d { UnusedBalance(s.t, c); }
    case DropCurrency(d) =>
    case NewCost(id, row) => if AddCost(s.t, id, row).Success? { AddCostGap(s.t, id, row, c); }
    case NewIncome(id, row) => if AddIncome(s.t, id, row).Success? { AddIncomeGap(s.t, id, row, c); }
    case NewExchange(id, row) => if AddExchange(s.t, id, row).Success? { AddExchangeGap(s.t, id, row, c); }
    case Commit(op) =>
      assert CommitOp(s.t, s.pending[op]).Success? ==> CommitOp(s.t, s.pending[op]).value.equity.Keys == s.t.equity.Keys
      by { CommitKeys(s.t, s.pending[op]); }
      if CommitOp(s.t, s.pending[op]).Success? { CommitGap(s.t, s.pending[op], c); }
    case _ =>
  }

  lemma CommitKeys(t: Tables, op: Op)
    ensures CommitOp(t, op).Success? ==> CommitOp(t, op).value.equity.Keys == t.equity.Keys
  {
    if op.UpdatingCost? { ShiftForCostIs(t.equity, op.cost, op.costPatch, 0); }
    if op.UpdatingIncome? { ShiftForIncomeIs(t.equity, op.income, op.incomePatch, 0); }
  }

  /**
   The drifts of a run added up, on top of `start`; a currency that is dropped
   or created during the run begins at zero again.
   */
  ghost function DriftOver(s: State, acts: seq<Action>, c: int, start: int): int
    requires Runs(s, acts)
    decreases |acts|
  {
    if acts == [] then start
    else
      var s' := Next(s, acts[0]);
      DriftOver(s', acts[1..], c, if c in s.t.equity && c in s'.t.equity then start + Drift(s, acts[0], c) else 0)
  }

  ghost function GapOrZero(s: State, c: int): int
    requires Consistent(s)
  {
    if c in s.t.equity then GapOf(s, c) else 0
  }

  /** In every run, with or without conflicts, the gap at the end is the gap at the start plus all drifts. */
  lemma {:induction false} RunGap(s: State, acts: seq<Action>, c: int)
    requires Consistent(s) && Runs(s, acts)
    ensures Consistent(After(s, acts))
    ensures c in After(s, acts).t.equity ==> GapOf(After(s, acts), c) == DriftOver(s, acts, c, GapOrZero(s, c))
    decreases |acts|
  {
    if acts != [] {
      var s' := Next(s, acts[0]);
      StepConsistent(s, acts[0]);
      if c in s'.t.equity {
        StepGap(s, acts[0], c);
      }
      RunGap(s', acts[1..], c);
    }
  }

  /** So a currency balances at the end of any run exactly when its opening gap and its drifts cancel out. */
  lemma RunBalancesIff(s: State, acts: seq<Action>, c: int)
    requires Consistent(s) && Runs(s, acts) && c in After(s, acts).t.equity
    ensures var s' := After(s, acts);
            && c in s'.opening
            && (s'.t.equity[c] == s'.opening[c] + Balance(s'.t, c) <==> DriftOver(s, acts, c, GapOrZero(s, c)) == 0)
  {
    RunGap(s, acts, c);
  }

  // ------------------------------------------------------------------
  // Runs without conflicts: the gap stays zero
  // ------------------------------------------------------------------

  function TargetOf(op: Op): Target {
    match op
    case UpdatingCost(id, _, _) => CostRow(id)
    case UpdatingIncome(id, _, _) => IncomeRow(id)
    case DeletingCost(id, _) => CostRow(id)
    case DeletingIncome(id, _) => IncomeRow(id)
    case DeletingExchange(id, _) => ExchangeRow(id)
  }

  /** The commit writes a row that another request has read and not yet written. */
  ghost predicate Conflicts(s: State, a: Action)
    requires Enabled(s, a)
  {
    a.Commit? && exists op :: op in s.pending && op != a.op && TargetOf(s.pending[op]) == TargetOf(s.pending[a.op])
  }

  ghost predicate ConflictFree(s: State, acts: seq<Action>)
    requires Runs(s, acts)
    decreases |acts|
  {
    acts == [] || (!Conflicts(s, acts[0]) && ConflictFree(Next(s, acts[0]), acts[1..]))
  }

  /** The row is still what the request has read. */
  predicate UpToDate(t: Tables, op: Op) {
    match op
    case UpdatingCost(id, row, _) => id in t.costs && t.costs[id] == row
    case UpdatingIncome(id, row, _) => id in t.incomes && t.incomes[id] == row
    case DeletingCost(id, row) => id in t.costs && t.costs[id] == row
    case DeletingIncome(id, row) => id in t.incomes && t.incomes[id] == row
    case DeletingExchange(id, row) => id in t.exchanges && t.exchanges[id] == row
  }

  ghost predicate Balanced(s: State) {
    && Consistent(s)
    && (forall op :: op in s.pending ==> UpToDate(s.t, s.pending[op]))
    && (forall c :: c in s.t.equity ==> GapOf(s, c) == 0)
  }

  lemma CommitTouchesTarget(t: Tables, op: Op, other: Op)
    requires UpToDate(t, other) && TargetOf(other) != TargetOf(op)
    ensures UpToDate(OrElse(t, CommitOp(t, op)), other)
  {
  }

  lemma StepUpToDate(s: State, a: Action)
    requires Enabled(s, a) && !Conflicts(s, a)
    requires forall op :: op in s.pending ==> UpToDate(s.t, s.pending[op])
    ensures forall op :: op in Next(s, a).pending ==> UpToDate(Next(s, a).t, Next(s, a).pending[op])
  {
    if a.Commit? {
      forall op | op in s.pending && op != a.op
        ensures UpToDate(Next(s, a).t, s.pending[op])
      {
        CommitTouchesTarget(s.t, s.pending[a.op], s.pending[op]);
      }
    }
  }

  lemma StepBalanced(s: State, a: Action)
    requires Balanced(s) && Enabled(s, a) && !Conflicts(s, a)
    ensures Balanced(Next(s, a))
  {
    StepConsistent(s, a);
    StepUpToDate(s, a);
    forall c | c in Next(s, a).t.equity
      ensures GapOf(Next(s, a), c) == 0
    {
      StepGap(s, a, c);
    }
  }

  /** equity = opening + incomes - costs + exchanges, after every run without conflicting commits. */
  lemma {:induction false} RunBalanced(s: State, acts: seq<Action>)
    requires Balanced(s) && Runs(s, acts) && ConflictFree(s, acts)
    ensures Balanced(After(s, acts))
    ensures var s' := After(s, acts);
            forall c :: c in s'.t.equity ==> s'.t.equity[c] == s'.opening[c] + Balance(s'.t, c)
    decreases |acts|
  {
    if acts != [] {
      StepBalanced(s, acts[0]);
      RunBalanced(Next(s, acts[0]), acts[1..]);
    } else {
      forall c | c in s.t.equity ensures s.t.equity[c] == s.opening[c] + Balance(s.t, c) {
        assert GapOf(s, c) == 0;
      }
    }
  }

  /**
   With a conflict the invariant fails: two requests that both read a cost and
   then both delete it return its value twice.
   */
  lemma OverlappingDeletes(s: State, id: int, a: int, b: int)
    requires Balanced(s) && id in s.t.costs && a != b && a !in s.pending && b !in s.pending
    ensures var acts := [ReadToDelete(a, CostRow(id)), ReadToDelete(b, CostRow(id)), Commit(a), Commit(b)];
            && Runs(s, acts) && Consistent(After(s, acts))
            && var c := s.t.costs[id].currency;
               c in After(s, acts).t.equity && GapOf(After(s, acts), c) == s.t.costs[id].value
  {
    var row := s.t.costs[id];
    var s2 := s.(pending := s.pending[a := DeletingCost(id, row)][b := DeletingCost(id, row)]);
    var s3 := Next(s2, Commit(a));
    Four(s, ReadToDelete(a, CostRow(id)), ReadToDelete(b, CostRow(id)), Commit(a), Commit(b));
    StepGap(s2, Commit(a), row.currency);
    StepGap(s3, Commit(b), row.currency);
  }

  lemma Four(s: State, a: Action, b: Action, c: Action, d: Action)
    requires Enabled(s, a) && Enabled(Next(s, a), b)
    requires var s2 := Next(Next(s, a), b); Enabled(s2, c) && Enabled(Next(s2, c), d)
    ensures Runs(s, [a, b, c, d]) && After(s, [a, b, c, d]) == Next(Next(Next(Next(s, a), b), c), d)
  {
    var s1 := Next(s, a);
    var s2 := Next(s1, b);
    var s3 := Next(s2, c);
    One(s3, d, []);
    One(s2, c, [d]);
    One(s1, b, [c, d]);
    One(s, a, [b, c, d]);
    assert [a] + [b, c, d] == [a, b, c, d] && [b] + [c, d] == [b, c, d] && [c] + [d] == [c, d] && [d] + [] == [d];
  }

  lemma One(s: State, a: Action, rest: seq<Action>)
    requires Enabled(s, a) && Runs(Next(s, a), rest)
    ensures Runs(s, [a] + rest) && After(s, [a] + rest) == After(Next(s, a), rest)
  {
    assert ([a] + rest)[1..] == rest;
  }

  // ------------------------------------------------------------------
  // One request after another
  // ------------------------------------------------------------------

  datatype Request =
    | DoAddCost(id: int, cost: Cost)
    | DoAddIncome(id: int, income: Income)
    | DoAddExchange(id: int, exchange: Exchange)
    | DoUpdateCost(id: int, costPatch: CostPatch)
    | DoUpdateIncome(id: int, incomePatch: IncomePatch)
    | DoDelete(target: Target)

  function Perform(t: Tables, r: Request): Result<Tables, Error> {
    match r
    case DoAddCost(id, row) => AddCost(t, id, row)
    case DoAddIncome(id, row) => AddIncome(t, id, row)
    case DoAddExchange(id, row) => AddExchange(t, id, row)
    case DoUpdateCost(id, patch) => UpdateCost(t, id, patch)
    case DoUpdateIncome(id, patch) => UpdateIncome(t, id, patch)
    case DoDelete(CostRow(id)) => DeleteCost(t, id)
    case DoDelete(IncomeRow(id)) => DeleteIncome(t, id)
    case DoDelete(ExchangeRow(id)) => DeleteExchange(t, id)
  }

  predicate FreshId(t: Tables, r: Request) {
    match r
    case DoAddCost(id, _) => id !in t.costs
    case DoAddIncome(id, _) => id !in t.incomes
    case DoAddExchange(id, _) => id !in t.exchanges
    case _ => true
  }

  /** The interleaved steps of a request that runs undisturbed. */
  function StepsOf(r: Request, op: int, t: Tables): seq<Action> {
    match r
    case DoAddCost(id, row) => [NewCost(id, row)]
    case DoAddIncome(id, row) => [NewIncome(id, row)]
    case DoAddExchange(id, row) => [NewExchange(id, row)]
    case DoUpdateCost(id, patch) => ReadThenCommit(t, ReadToUpdateCost(op, id, patch))
    case DoUpdateIncome(id, patch) => ReadThenCommit(t, ReadToUpdateIncome(op, id, patch))
    case DoDelete(target) => ReadThenCommit(t, ReadToDelete(op, target))
  }

  function ReadThenCommit(t: Tables, a: Action): seq<Action>
    requires a.ReadToUpdateCost? || a.ReadToUpdateIncome? || a.ReadToDelete?
  {
    if ReadOp(t, a).Some? then [a, Commit(a.op)] else [a]
  }

  lemma RunOne(s: State, a: Action)
    requires Enabled(s, a) && !Conflicts(s, a)
    ensures Runs(s, [a]) && ConflictFree(s, [a]) && After(s, [a]) == Next(s, a)
  {
    assert [a][1..] == [];
    assert Runs(Next(s, a), []) && ConflictFree(Next(s, a), []);
  }

  lemma RunTwo(s: State, a: Action, b: Action)
    requires Enabled(s, a) && !Conflicts(s, a) && Enabled(Next(s, a), b) && !Conflicts(Next(s, a), b)
    ensures Runs(s, [a, b]) && ConflictFree(s, [a, b]) && After(s, [a, b]) == Next(Next(s, a), b)
  {
    assert [a, b][1..] == [b];
    RunOne(Next(s, a), b);
  }

  /** A read and its commit with nothing in between. */
  lemma ReadThenCommitIsRun(s: State, a: Action)
    requires (a.ReadToUpdateCost? || a.ReadToUpdateIncome? || a.ReadToDelete?) && s.pending == map[]
    ensures var acts, op := ReadThenCommit(s.t, a), ReadOp(s.t, a);
            && Runs(s, acts) && ConflictFree(s, acts)
            && After(s, acts) == s.(t := if op.Some? then OrElse(s.t, CommitOp(s.t, op.value)) else s.t)
  {
    if ReadOp(s.t, a).Some? {
      RunTwo(s, a, Commit(a.op));
      assert After(s, [a, Commit(a.op)]).pending == map[];
    } else {
      RunOne(s, a);
    }
  }

  /** A request performed at once is a conflict-free run, and ends where `Perform` says. */
  lemma PerformIsRun(s: State, r: Request, op: int)
    requires FreshId(s.t, r) && s.pending == map[]
    ensures var acts := StepsOf(r, op, s.t);
            && Runs(s, acts) && ConflictFree(s, acts)
            && After(s, acts) == s.(t := OrElse(s.t, Perform(s.t, r)))
  {
    match r
    case DoUpdateCost(id, patch) => ReadThenCommitIsRun(s, ReadToUpdateCost(op, id, patch));
    case DoUpdateIncome(id, patch) => ReadThenCommitIsRun(s, ReadToUpdateIncome(op, id, patch));
    case DoDelete(target) => ReadThenCommitIsRun(s, ReadToDelete(op, target));
    case _ => RunOne(s, StepsOf(r, op, s.t)[0]);
  }

  /** Tables after each request in turn; a failing one changes nothing. */
  function PerformAll(t: Tables, rs: seq<Request>): Tables
    decreases |rs|
  {
    if rs == [] then t else PerformAll(OrElse(t, Perform(t, rs[0])), rs[1..])
  }

  predicate AllFresh(t: Tables, rs: seq<Request>)
    decreases |rs|
  {
    rs == [] || (FreshId(t, rs[0]) && AllFresh(OrElse(t, Perform(t, rs[0])), rs[1..]))
  }

  /** The sequential ledger invariant, over any list of requests, failing ones included. */
  lemma {:induction false} SequentialLedger(s: State, rs: seq<Request>)
    requires Balanced(s) && s.pending == map[] && AllFresh(s.t, rs)
    ensures Balanced(s.(t := PerformAll(s.t, rs)))
    decreases |rs|
  {
    if rs != [] {
      PerformIsRun(s, rs[0], 0);
      RunBalanced(s, StepsOf(rs[0], 0, s.t));
      SequentialLedger(s.(t := OrElse(s.t, Perform(s.t, rs[0]))), rs[1..]);
    } else {
      assert s.(t := PerformAll(s.t, rs)) == s;
    }
  }
}
