/** The ledger's requests as they run: statements in a session, then commit or rollback. */
module LedgerDatabase {
  import opened Wrappers
  import opened Ledger
  import opened LedgerRows
  import L = LedgerRuns

  /** `result` is what the specification says of a request that left `after` behind. */
  predicate Ends(result: Result<Tables, Error>, before: Tables, after: Tables, error: Option<Error>) {
    match result
    case Success(t) => after == t && error.None?
    case Failure(e) => after == before && error == Some(e)
  }

  /** Equity and rows of every currency have moved together. */
  ghost predicate GapsKept(before: Tables, after: Tables) {
    forall c :: c in before.equity ==> c in after.equity && Gap(after, 0, c) == Gap(before, 0, c)
  }

  /** The gap of every currency has moved by what the snapshot says minus what the current row says. */
  ghost predicate GapsDrifted(before: Tables, after: Tables, op: L.Op) {
    forall c :: c in before.equity ==>
      && c in after.equity
      && Gap(after, 0, c) == Gap(before, 0, c) + L.SnapshotEffect(op, c) - L.CurrentEffect(before, op, c)
  }

  lemma AddKeepsGaps(t: Tables, r: L.Request)
    requires L.FreshId(t, r) && (r.DoAddCost? || r.DoAddIncome? || r.DoAddExchange?) && L.Perform(t, r).Success?
    ensures GapsKept(t, L.Perform(t, r).value)
  {
    forall c | c in t.equity
      ensures c in L.Perform(t, r).value.equity && Gap(L.Perform(t, r).value, 0, c) == Gap(t, 0, c)
    {
      match r
      case DoAddCost(id, row) => AddCostGap(t, id, row, c);
      case DoAddIncome(id, row) => AddIncomeGap(t, id, row, c);
      case DoAddExchange(id, row) => AddExchangeGap(t, id, row, c);
    }
  }

  lemma CommitDrifts(t: Tables, op: L.Op)
    requires L.CommitOp(t, op).Success?
    ensures GapsDrifted(t, L.CommitOp(t, op).value, op)
  {
    forall c | c in t.equity
      ensures
        && c in L.CommitOp(t, op).value.equity
        && Gap(L.CommitOp(t, op).value, 0, c) == Gap(t, 0, c) + L.SnapshotEffect(op, c) - L.CurrentEffect(t, op, c)
    {
      L.CommitGap(t, op, c);
    }
  }

  class Database {
    var tables: Tables

    constructor (tables: Tables)
      ensures this.tables == tables
    {
      this.tables := tables;
    }

    method AddCost(id: int, row: Cost) returns (error: Option<Error>)
      modifies this
      ensures Ends(Ledger.AddCost(old(tables), id, row), old(tables), tables, error)
      ensures error.None? && id !in old(tables.costs) ==> GapsKept(old(tables), tables)
      ensures error == Some(DatabaseError) <==> row.value < 0
      ensures error.None? ==> RowAdded(old(tables.costs), tables.costs, id, row)
    {
      AddCostEffect(tables, id, row);
      var session := tables;
      if row.value < 0 {
        return Some(DatabaseError);
      }
      session := session.(costs := session.costs[id := row]);
      if row.currency !in session.equity || row.category !in session.categories || row.user !in session.users {
        return Some(BadInput);
      }
      session := session.(equity := Adjust(session.equity, row.currency, -row.value));
      tables, error := session, None;
      if id !in old(tables.costs) {
        AddKeepsGaps(old(tables), L.DoAddCost(id, row));
      }
    }

    method AddIncome(id: int, row: Income) returns (error: Option<Error>)
      modifies this
      ensures Ends(Ledger.AddIncome(old(tables), id, row), old(tables), tables, error)
      ensures error.None? && id !in old(tables.incomes) ==> GapsKept(old(tables), tables)
      ensures error == Some(DatabaseError) <==> row.value < 0
      ensures error.None? ==> RowAdded(old(tables.incomes), tables.incomes, id, row)
    {
      AddIncomeEffect(tables, id, row);
      var session := tables;
      if row.value < 0 {
        return Some(DatabaseError);
      }
      session := session.(incomes := session.incomes[id := row]);
      if row.currency !in session.equity || row.user !in session.users {
        return Some(BadInput);
      }
      session := session.(equity := Adjust(session.equity, row.currency, row.value));
      tables, error := session, None;
      if id !in old(tables.incomes) {
        AddKeepsGaps(old(tables), L.DoAddIncome(id, row));
      }
    }

    method CurrencyExchange(id: int, row: Exchange) returns (error: Option<Error>)
      modifies this
      ensures Ends(Ledger.AddExchange(old(tables), id, row), old(tables), tables, error)
      ensures error.None? && id !in old(tables.exchanges) ==> GapsKept(old(tables), tables)
      ensures error == Some(DatabaseError) <==> row.fromValue < 0 || row.toValue < 0
      ensures error.None? ==> RowAdded(old(tables.exchanges), tables.exchanges, id, row)
    {
      AddExchangeEffect(tables, id, row);
      var session := tables;
      if row.fromValue < 0 || row.toValue < 0 {
        return Some(DatabaseError);
      }
      session := session.(exchanges := session.exchanges[id := row]);
      if row.fromCurrency !in session.equity || row.toCurrency !in session.equity || row.user !in session.users {
        return Some(BadInput);
      }
      session := session.(equity := Adjust(session.equity, row.fromCurrency, -row.fromValue));
      session := session.(equity := Adjust(session.equity, row.toCurrency, row.toValue));
      tables, error := session, None;
      if id !in old(tables.exchanges) {
        AddKeepsGaps(old(tables), L.DoAddExchange(id, row));
      }
    }

    /** The read phase of `update_cost`: fetch the row, delete repeated payload entries. */
    method ReadToUpdateCost(id: int, values: CostPatch) returns (snap: Option<Cost>, patch: CostPatch, error: Option<Error>)
      ensures id !in tables.costs ==> error == Some(NotFound)
      ensures id in tables.costs ==>
                && snap == Some(tables.costs[id]) && patch == DedupCost(tables.costs[id], values)
                && error == if patch == EmptyCostPatch then Some(NothingToUpdate) else None
      ensures id in tables.costs ==>
                && Deduped(values.name, patch.name, tables.costs[id].name)
                && Deduped(values.value, patch.value, tables.costs[id].value)
                && Deduped(values.date, patch.date, tables.costs[id].date)
                && Deduped(values.currency, patch.currency, tables.costs[id].currency)
                && Deduped(values.category, patch.category, tables.costs[id].category)
      ensures error == Some(NothingToUpdate) <==> id in tables.costs && AllRepeat(values, tables.costs[id])
    {
      patch := values;
      if id !in tables.costs {
        return None, patch, Some(NotFound);
      }
      var row := tables.costs[id];
      if patch.name == Set(row.name) { patch := patch.(name := Absent); }
      if patch.value == Set(row.value) { patch := patch.(value := Absent); }
      if patch.date == Set(row.date) { patch := patch.(date := Absent); }
      if patch.currency == Set(row.currency) { patch := patch.(currency := Absent); }
      if patch.category == Set(row.category) { patch := patch.(category := Absent); }
      snap := Some(row);
      error := if patch == EmptyCostPatch then Some(NothingToUpdate) else None;
    }

    /** The transaction of `update_cost`. */
    method CommitUpdateCost(id: int, snap: Cost, patch: CostPatch) returns (error: Option<Error>)
      modifies this
      ensures Ends(Ledger.CommitUpdateCost(old(tables), id, snap, patch), old(tables), tables, error)
      ensures error.None? ==> GapsDrifted(old(tables), tables, L.UpdatingCost(id, snap, patch))
      ensures error.None? && id in old(tables.costs) ==>
                && id in tables.costs && CostPatched(patch, old(tables.costs[id]), tables.costs[id])
                && OthersKept(old(tables.costs), tables.costs, id)
    {
      if id in tables.costs {
        CommitUpdateCostEffect(tables, id, snap, patch);
      }
      var session := tables;
      if id in session.costs {
        var row := PatchCost(session.costs[id], patch);
        if HasNullCost(patch) {
          return Some(Integrity);
        }
        if row.currency !in session.equity || row.category !in session.categories {
          return Some(BadInput);
        }
        session := session.(costs := session.costs[id := row]);
      }
      var equity := session.equity;
      if patch.currency.Set? {
        if patch.value.Set? {
          equity := Adjust(equity, snap.currency, snap.value);
          equity := Adjust(equity, patch.currency.value, -patch.value.value);
        } else {
          equity := Adjust(equity, snap.currency, snap.value);
          equity := Adjust(equity, patch.currency.value, -snap.value);
        }
      } else if patch.value.Set? {
        equity := Adjust(equity, snap.currency, -(patch.value.value - snap.value));
      }
      tables, error := session.(equity := equity), None;
      CommitDrifts(old(tables), L.UpdatingCost(id, snap, patch));
    }

    method ReadToUpdateIncome(id: int, values: IncomePatch) returns (snap: Option<Income>, patch: IncomePatch, error: Option<Error>)
      ensures id !in tables.incomes ==> error == Some(NotFound)
      ensures id in tables.incomes ==>
                && snap == Some(tables.incomes[id]) && patch == DedupIncome(tables.incomes[id], values)
                && error == if patch == EmptyIncomePatch then Some(NothingToUpdate) else None
      ensures id in tables.incomes ==>
                && Deduped(values.name, patch.name, tables.incomes[id].name)
                && Deduped(values.value, patch.value, tables.incomes[id].value)
                && Deduped(values.date, patch.date, tables.incomes[id].date)
                && Deduped(values.source, patch.source, tables.incomes[id].source)
                && Deduped(values.currency, patch.currency, tables.incomes[id].currency)
      ensures error == Some(NothingToUpdate) <==> id in tables.incomes && AllRepeatIncome(values, tables.incomes[id])
    {
      patch := values;
      if id !in tables.incomes {
        return None, patch, Some(NotFound);
      }
      var row := tables.incomes[id];
      if patch.name == Set(row.name) { patch := patch.(name := Absent); }
      if patch.value == Set(row.value) { patch := patch.(value := Absent); }
      if patch.date == Set(row.date) { patch := patch.(date := Absent); }
      if patch.source == Set(row.source) { patch := patch.(source := Absent); }
      if patch.currency == Set(row.currency) { patch := patch.(currency := Absent); }
      snap := Some(row);
      error := if patch == EmptyIncomePatch then Some(NothingToUpdate) else None;
    }

    method CommitUpdateIncome(id: int, snap: Income, patch: IncomePatch) returns (error: Option<Error>)
      modifies this
      ensures Ends(Ledger.CommitUpdateIncome(old(tables), id, snap, patch), old(tables), tables, error)
      ensures error.None? ==> GapsDrifted(old(tables), tables, L.UpdatingIncome(id, snap, patch))
      ensures error.None? && id in old(tables.incomes) ==>
                && id in tables.incomes && IncomePatched(patch, old(tables.incomes[id]), tables.incomes[id])
                && OthersKept(old(tables.incomes), tables.incomes, id)
    {
      if id in tables.incomes {
        CommitUpdateIncomeEffect(tables, id, snap, patch);
      }
      var session := tables;
      if id in session.incomes {
        var row := PatchIncome(session.incomes[id], patch);
        if HasNullIncome(patch) {
          return Some(Integrity);
        }
        if row.currency !in session.equity {
          return Some(BadInput);
        }
        session := session.(incomes := session.incomes[id := row]);
      }
      var equity := session.equity;
      if patch.currency.Set? {
        equity := Adjust(equity, snap.currency, -snap.value);
        if patch.value.Set? {
          equity := Adjust(equity, patch.currency.value, patch.value.value);
        } else {
          equity := Adjust(equity, patch.currency.value, snap.value);
        }
      } else if patch.value.Set? {
        equity := Adjust(equity, snap.currency, patch.value.value - snap.value);
      }
      tables, error := session.(equity := equity), None;
      CommitDrifts(old(tables), L.UpdatingIncome(id, snap, patch));
    }

    method CommitDeleteCost(id: int, snap: Cost)
      modifies this
      ensures tables == Ledger.CommitDeleteCost(old(tables), id, snap)
      ensures GapsDrifted(old(tables), tables, L.DeletingCost(id, snap))
      ensures RowRemoved(old(tables.costs), tables.costs, id)
    {
      var session := tables.(costs := tables.costs - {id});
      tables := session.(equity := Adjust(session.equity, snap.currency, snap.value));
      CommitDrifts(old(tables), L.DeletingCost(id, snap));
    }

    method CommitDeleteIncome(id: int, snap: Income)
      modifies this
      ensures tables == Ledger.CommitDeleteIncome(old(tables), id, snap)
      ensures GapsDrifted(old(tables), tables, L.DeletingIncome(id, snap))
      ensures RowRemoved(old(tables.incomes), tables.incomes, id)
    {
      var session := tables.(incomes := tables.incomes - {id});
      tables := session.(equity := Adjust(session.equity, snap.currency, -snap.value));
      CommitDrifts(old(tables), L.DeletingIncome(id, snap));
    }

    method CommitDeleteExchange(id: int, snap: Exchange)
      modifies this
      ensures tables == Ledger.CommitDeleteExchange(old(tables), id, snap)
      ensures GapsDrifted(old(tables), tables, L.DeletingExchange(id, snap))
      ensures RowRemoved(old(tables.exchanges), tables.exchanges, id)
    {
      var session := tables.(exchanges := tables.exchanges - {id});
      session := session.(equity := Adjust(session.equity, snap.fromCurrency, snap.fromValue));
      tables := session.(equity := Adjust(session.equity, snap.toCurrency, -snap.toValue));
      CommitDrifts(old(tables), L.DeletingExchange(id, snap));
    }
  }
}
