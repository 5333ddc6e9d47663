/** What each request leaves in the rows, column by column, and exactly when it is refused. */
module LedgerRows {
  import opened Wrappers
  import opened Ledger

  // ------------------------------------------------------------------
  // Adding
  // ------------------------------------------------------------------

  /** Only this currency's equity has changed, by this amount. */
  predicate EquityMoved(before: map<int, int>, after: map<int, int>, c: int, delta: int) {
    && after.Keys == before.Keys && c in before
    && after[c] == before[c] + delta
    && forall other :: other in before && other != c ==> after[other] == before[other]
  }

  predicate RowAdded<V(==)>(before: map<int, V>, after: map<int, V>, id: int, row: V) {
    && after.Keys == before.Keys + {id}
    && after[id] == row
    && forall other :: other in before && other != id ==> after[other] == before[other]
  }

  lemma AddCostEffect(t: Tables, id: int, row: Cost)
    ensures AddCost(t, id, row) == Failure(DatabaseError) <==> row.value < 0
    ensures AddCost(t, id, row) == Failure(BadInput) <==>
              row.value >= 0 && (row.currency !in t.equity || row.category !in t.categories || row.user !in t.users)
    ensures AddCost(t, id, row).Failure? ==> AddCost(t, id, row).error in {DatabaseError, BadInput}
    ensures AddCost(t, id, row).Success? ==>
              var t' := AddCost(t, id, row).value;
              && t' == t.(costs := t'.costs, equity := t'.equity)
              && RowAdded(t.costs, t'.costs, id, row) && EquityMoved(t.equity, t'.equity, row.currency, -row.value)
  {
  }

  lemma AddIncomeEffect(t: Tables, id: int, row: Income)
    ensures AddIncome(t, id, row) == Failure(DatabaseError) <==> row.value < 0
    ensures AddIncome(t, id, row) == Failure(BadInput) <==> row.value >= 0 && (row.currency !in t.equity || row.user !in t.users)
    ensures AddIncome(t, id, row).Failure? ==> AddIncome(t, id, row).error in {DatabaseError, BadInput}
    ensures AddIncome(t, id, row).Success? ==>
              var t' := AddIncome(t, id, row).value;
              && t' == t.(incomes := t'.incomes, equity := t'.equity)
              && RowAdded(t.incomes, t'.incomes, id, row) && EquityMoved(t.equity, t'.equity, row.currency, row.value)
  {
  }

  /** One currency pays and another, or the same, receives. */
  predicate EquityExchanged(before: map<int, int>, after: map<int, int>, row: Exchange) {
    && after.Keys == before.Keys && row.fromCurrency in before && row.toCurrency in before
    && (row.fromCurrency != row.toCurrency ==>
          && after[row.fromCurrency] == before[row.fromCurrency] - row.fromValue
          && after[row.toCurrency] == before[row.toCurrency] + row.toValue)
    && (row.fromCurrency == row.toCurrency ==> after[row.toCurrency] == before[row.toCurrency] - row.fromValue + row.toValue)
    && forall other :: other in before && other != row.fromCurrency && other != row.toCurrency ==> after[other] == before[other]
  }

  lemma AddExchangeEffect(t: Tables, id: int, row: Exchange)
    ensures AddExchange(t, id, row) == Failure(DatabaseError) <==> row.fromValue < 0 || row.toValue < 0
    ensures AddExchange(t, id, row) == Failure(BadInput) <==>
              && row.fromValue >= 0 && row.toValue >= 0
              && (row.fromCurrency !in t.equity || row.toCurrency !in t.equity || row.user !in t.users)
    ensures AddExchange(t, id, row).Failure? ==> AddExchange(t, id, row).error in {DatabaseError, BadInput}
    ensures AddExchange(t, id, row).Success? ==>
              var t' := AddExchange(t, id, row).value;
              && t' == t.(exchanges := t'.exchanges, equity := t'.equity)
              && RowAdded(t.exchanges, t'.exchanges, id, row) && EquityExchanged(t.equity, t'.equity, row)
  {
  }

  // ------------------------------------------------------------------
  // Updating
  // ------------------------------------------------------------------

  /** The column has the payload's value where one was sent, and its own otherwise. */
  predicate Column<T(==)>(field: Field<T>, before: T, after: T) {
    after == if field.Set? then field.value else before
  }

  predicate CostPatched(patch: CostPatch, before: Cost, after: Cost) {
    && Column(patch.name, before.name, after.name) && Column(patch.value, before.value, after.value)
    && Column(patch.date, before.date, after.date) && Column(patch.currency, before.currency, after.currency)
    && Column(patch.category, before.category, after.category) && after.user == before.user
  }

  predicate IncomePatched(patch: IncomePatch, before: Income, after: Income) {
    && Column(patch.name, before.name, after.name) && Column(patch.value, before.value, after.value)
    && Column(patch.date, before.date, after.date) && Column(patch.source, before.source, after.source)
    && Column(patch.currency, before.currency, after.currency) && after.user == before.user
  }

  predicate OthersKept<V(==)>(before: map<int, V>, after: map<int, V>, id: int) {
    after.Keys == before.Keys && forall other :: other in before && other != id ==> after[other] == before[other]
  }

  /** The columns that a row may hold: none of them null, and existing references. */
  predicate CostPatchFits(t: Tables, row: Cost, patch: CostPatch) {
    && (if patch.currency.Set? then patch.currency.value in t.equity else row.currency in t.equity)
    && (if patch.category.Set? then patch.category.value in t.categories else row.category in t.categories)
  }

  lemma CommitUpdateCostEffect(t: Tables, id: int, snap: Cost, patch: CostPatch)
    requires id in t.costs
    ensures var r := CommitUpdateCost(t, id, snap, patch);
            var sentNull := patch.name.Null? || patch.value.Null? || patch.date.Null? || patch.currency.Null? || patch.category.Null?;
            && (r == Failure(Integrity) <==> sentNull)
            && (r == Failure(BadInput) <==> !sentNull && !CostPatchFits(t, t.costs[id], patch))
            && (r.Success? <==> !sentNull && CostPatchFits(t, t.costs[id], patch))
            && (r.Success? ==>
                  && CostPatched(patch, t.costs[id], r.value.costs[id]) && OthersKept(t.costs, r.value.costs, id)
                  && r.value == t.(costs := r.value.costs, equity := r.value.equity))
  {
  }

  predicate IncomePatchFits(t: Tables, row: Income, patch: IncomePatch) {
    if patch.currency.Set? then patch.currency.value in t.equity else row.currency in t.equity
  }

  lemma CommitUpdateIncomeEffect(t: Tables, id: int, snap: Income, patch: IncomePatch)
    requires id in t.incomes
    ensures var r := CommitUpdateIncome(t, id, snap, patch);
            var sentNull := patch.name.Null? || patch.value.Null? || patch.date.Null? || patch.source.Null? || patch.currency.Null?;
            && (r == Failure(Integrity) <==> sentNull)
            && (r == Failure(BadInput) <==> !sentNull && !IncomePatchFits(t, t.incomes[id], patch))
            && (r.Success? <==> !sentNull && IncomePatchFits(t, t.incomes[id], patch))
            && (r.Success? ==>
                  && IncomePatched(patch, t.incomes[id], r.value.incomes[id]) && OthersKept(t.incomes, r.value.incomes, id)
                  && r.value == t.(incomes := r.value.incomes, equity := r.value.equity))
  {
  }

  /** A row that is gone by the commit is updated without effect, and the equity moves all the same. */
  lemma CommitUpdateGone(t: Tables, id: int, cost: Cost, costPatch: CostPatch, income: Income, incomePatch: IncomePatch)
    ensures id !in t.costs ==>
              var r := CommitUpdateCost(t, id, cost, costPatch);
              r.Success? && r.value == t.(equity := r.value.equity) && r.value.equity.Keys == t.equity.Keys
    ensures id !in t.incomes ==>
              var r := CommitUpdateIncome(t, id, income, incomePatch);
              r.Success? && r.value == t.(equity := r.value.equity) && r.value.equity.Keys == t.equity.Keys
  {
    ShiftForCostIs(t.equity, cost, costPatch, 0);
    ShiftForIncomeIs(t.equity, income, incomePatch, 0);
  }

  /** Nothing is sent, or what is sent repeats the column. */
  predicate Repeats<T(==)>(field: Field<T>, current: T) {
    field.Absent? || (field.Set? && field.value == current)
  }

  /** An entry that repeats the column is dropped; any other is kept as it was sent. */
  predicate Deduped<T(==)>(sent: Field<T>, kept: Field<T>, current: T) {
    if sent.Set? && sent.value == current then kept.Absent? else kept == sent
  }

  predicate AllRepeat(patch: CostPatch, row: Cost) {
    && Repeats(patch.name, row.name) && Repeats(patch.value, row.value) && Repeats(patch.date, row.date)
    && Repeats(patch.currency, row.currency) && Repeats(patch.category, row.category)
  }

  predicate AllRepeatIncome(patch: IncomePatch, row: Income) {
    && Repeats(patch.name, row.name) && Repeats(patch.value, row.value) && Repeats(patch.date, row.date)
    && Repeats(patch.source, row.source) && Repeats(patch.currency, row.currency)
  }

  /** The whole request: repeated columns are dropped first, which changes nothing in the row that results. */
  lemma UpdateCostEffect(t: Tables, id: int, patch: CostPatch)
    ensures UpdateCost(t, id, patch) == Failure(NotFound) <==> id !in t.costs
    ensures UpdateCost(t, id, patch) == Failure(NothingToUpdate) <==> id in t.costs && AllRepeat(patch, t.costs[id])
    ensures UpdateCost(t, id, patch).Success? ==>
              var t' := UpdateCost(t, id, patch).value;
              && t' == t.(costs := t'.costs, equity := t'.equity)
              && id in t'.costs && CostPatched(patch, t.costs[id], t'.costs[id]) && OthersKept(t.costs, t'.costs, id)
  {
    if id in t.costs {
      CommitUpdateCostEffect(t, id, t.costs[id], DedupCost(t.costs[id], patch));
    }
  }

  lemma UpdateIncomeEffect(t: Tables, id: int, patch: IncomePatch)
    ensures UpdateIncome(t, id, patch) == Failure(NotFound) <==> id !in t.incomes
    ensures UpdateIncome(t, id, patch) == Failure(NothingToUpdate) <==> id in t.incomes && AllRepeatIncome(patch, t.incomes[id])
    ensures UpdateIncome(t, id, patch).Success? ==>
              var t' := UpdateIncome(t, id, patch).value;
              && t' == t.(incomes := t'.incomes, equity := t'.equity)
              && id in t'.incomes && IncomePatched(patch, t.incomes[id], t'.incomes[id]) && OthersKept(t.incomes, t'.incomes, id)
  {
    if id in t.incomes {
      CommitUpdateIncomeEffect(t, id, t.incomes[id], DedupIncome(t.incomes[id], patch));
    }
  }

  // ------------------------------------------------------------------
  // Deleting
  // ------------------------------------------------------------------

  predicate RowRemoved<V(==)>(before: map<int, V>, after: map<int, V>, id: int) {
    after.Keys == before.Keys - {id} && forall other :: other in after ==> after[other] == before[other]
  }

  lemma DeleteEffects(t: Tables, id: int)
    ensures DeleteCost(t, id) == Failure(NotFound) <==> id !in t.costs
    ensures id in t.costs ==>
              && DeleteCost(t, id).Success?
              && var t' := DeleteCost(t, id).value;
                 t' == t.(costs := t'.costs, equity := t'.equity) && RowRemoved(t.costs, t'.costs, id)
    ensures DeleteIncome(t, id) == Failure(NotFound) <==> id !in t.incomes
    ensures id in t.incomes ==>
              && DeleteIncome(t, id).Success?
              && var t' := DeleteIncome(t, id).value;
                 t' == t.(incomes := t'.incomes, equity := t'.equity) && RowRemoved(t.incomes, t'.incomes, id)
    ensures DeleteExchange(t, id) == Failure(NotFound) <==> id !in t.exchanges
    ensures id in t.exchanges ==>
              && DeleteExchange(t, id).Success?
              && var t' := DeleteExchange(t, id).value;
                 t' == t.(exchanges := t'.exchanges, equity := t'.equity) && RowRemoved(t.exchanges, t'.exchanges, id)
  {
  }

  /** A currency is dropped exactly when no row refers to it, and nothing else changes. */
  lemma DeleteCurrencyEffect(t: Tables, c: int)
    ensures DeleteCurrency(t, c).Success? <==>
              && (forall id :: id in t.costs ==> t.costs[id].currency != c)
              && (forall id :: id in t.incomes ==> t.incomes[id].currency != c)
              && (forall id :: id in t.exchanges ==> t.exchanges[id].fromCurrency != c && t.exchanges[id].toCurrency != c)
    ensures DeleteCurrency(t, c).Success? ==>
              var t' := DeleteCurrency(t, c).value;
              t' == t.(equity := t'.equity) && RowRemoved(t.equity, t'.equity, c)
    ensures DeleteCurrency(t, c).Failure? ==> DeleteCurrency(t, c).error == InUse
  {
  }
}
