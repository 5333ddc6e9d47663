/**
 Costs, incomes, exchanges, and the equity that every write keeps up to date.

 An update or a delete reads its row first and commits later; the equity change
 it commits comes from the row as it was read. A failing transaction changes
 nothing.
 */
module Ledger {
  import opened Wrappers
  import opened Sums

  datatype Cost = Cost(name: string, value: int, date: int, currency: int, category: int, user: int)
  datatype Income = Income(name: string, value: int, date: int, source: string, currency: int, user: int)
  datatype Exchange = Exchange(fromValue: int, toValue: int, date: int, fromCurrency: int, toCurrency: int, user: int)

  /** One entry of an update payload: not sent, sent as null, or sent with a value. */
  datatype Field<+T> = Absent | Null | Set(value: T)

  datatype CostPatch = CostPatch(name: Field<string>, value: Field<int>, date: Field<int>, currency: Field<int>, category: Field<int>)
  datatype IncomePatch = IncomePatch(name: Field<string>, value: Field<int>, date: Field<int>, source: Field<string>, currency: Field<int>)

  /** The committed tables; `equity` is the currencies table. */
  datatype Tables = Tables(
    costs: map<int, Cost>,
    incomes: map<int, Income>,
    exchanges: map<int, Exchange>,
    equity: map<int, int>,
    categories: set<int>,
    users: set<int>)

  datatype Error = NotFound | NothingToUpdate | BadInput | Integrity | DatabaseError | InUse

  // ------------------------------------------------------------------
  // What rows are worth
  // ------------------------------------------------------------------

  function CostEffect(row: Cost, c: int): int {
    if row.currency == c then -row.value else 0
  }

  function IncomeEffect(row: Income, c: int): int {
    if row.currency == c then row.value else 0
  }

  function ExchangeEffect(row: Exchange, c: int): int {
    (if row.toCurrency == c then row.toValue else 0) - (if row.fromCurrency == c then row.fromValue else 0)
  }

  function CostTerm(c: int): Cost -> int { row => CostEffect(row, c) }
  function IncomeTerm(c: int): Income -> int { row => IncomeEffect(row, c) }
  function ExchangeTerm(c: int): Exchange -> int { row => ExchangeEffect(row, c) }

  /** incomes - costs + exchanges in - exchanges out, for one currency */
  ghost function Balance(t: Tables, c: int): int {
    Sum(t.incomes, IncomeTerm(c)) + Sum(t.costs, CostTerm(c)) + Sum(t.exchanges, ExchangeTerm(c))
  }

  // ------------------------------------------------------------------
  // Statements
  // ------------------------------------------------------------------

  /** `UPDATE currencies SET equity = equity + delta WHERE id = c`; no row, no change. */
  function Adjust(equity: map<int, int>, c: int, delta: int): map<int, int> {
    if c in equity then equity[c := equity[c] + delta] else equity
  }

  function Pick<T>(field: Field<T>, current: T): T {
    if field.Set? then field.value else current
  }

  function PatchCost(row: Cost, patch: CostPatch): Cost {
    row.(name := Pick(patch.name, row.name), value := Pick(patch.value, row.value), date := Pick(patch.date, row.date),
         currency := Pick(patch.currency, row.currency), category := Pick(patch.category, row.category))
  }

  function PatchIncome(row: Income, patch: IncomePatch): Income {
    row.(name := Pick(patch.name, row.name), value := Pick(patch.value, row.value), date := Pick(patch.date, row.date),
         source := Pick(patch.source, row.source), currency := Pick(patch.currency, row.currency))
  }

  /** Drop an entry that repeats what the row already has. */
  function Dedup<T(==)>(field: Field<T>, current: T): Field<T> {
    if field == Set(current) then Absent else field
  }

  function DedupCost(row: Cost, patch: CostPatch): CostPatch {
    CostPatch(Dedup(patch.name, row.name), Dedup(patch.value, row.value), Dedup(patch.date, row.date),
              Dedup(patch.currency, row.currency), Dedup(patch.category, row.category))
  }

  function DedupIncome(row: Income, patch: IncomePatch): IncomePatch {
    IncomePatch(Dedup(patch.name, row.name), Dedup(patch.value, row.value), Dedup(patch.date, row.date),
                Dedup(patch.source, row.source), Dedup(patch.currency, row.currency))
  }

  const EmptyCostPatch := CostPatch(Absent, Absent, Absent, Absent, Absent)
  const EmptyIncomePatch := IncomePatch(Absent, Absent, Absent, Absent, Absent)

  predicate HasNullCost(patch: CostPatch) {
    patch.name.Null? || patch.value.Null? || patch.date.Null? || patch.currency.Null? || patch.category.Null?
  }

  predicate HasNullIncome(patch: IncomePatch) {
    patch.name.Null? || patch.value.Null? || patch.date.Null? || patch.source.Null? || patch.currency.Null?
  }

  // ------------------------------------------------------------------
  // Transactions
  // ------------------------------------------------------------------

  function AddCost(t: Tables, id: int, row: Cost): Result<Tables, Error> {
    if row.value < 0 then Failure(DatabaseError)
    else if row.currency !in t.equity || row.category !in t.categories || row.user !in t.users then Failure(BadInput)
    else Success(t.(costs := t.costs[id := row], equity := Adjust(t.equity, row.currency, -row.value)))
  }

  function AddIncome(t: Tables, id: int, row: Income): Result<Tables, Error> {
    if row.value < 0 then Failure(DatabaseError)
    else if row.currency !in t.equity || row.user !in t.users then Failure(BadInput)
    else Success(t.(incomes := t.incomes[id := row], equity := Adjust(t.equity, row.currency, row.value)))
  }

  function AddExchange(t: Tables, id: int, row: Exchange): Result<Tables, Error> {
    if row.fromValue < 0 || row.toValue < 0 then Failure(DatabaseError)
    else if row.fromCurrency !in t.equity || row.toCurrency !in t.equity || row.user !in t.users then Failure(BadInput)
    else Success(t.(exchanges := t.exchanges[id := row],
                    equity := Adjust(Adjust(t.equity, row.fromCurrency, -row.fromValue), row.toCurrency, row.toValue)))
  }

  /** Equity statements of `update_cost`, from the row as it was read. */
  function ShiftForCost(equity: map<int, int>, snap: Cost, patch: CostPatch): map<int, int> {
    if patch.currency.Set? then
      Adjust(Adjust(equity, snap.currency, snap.value), patch.currency.value,
             if patch.value.Set? then -patch.value.value else -snap.value)
    else if patch.value.Set? then
      Adjust(equity, snap.currency, -(patch.value.value - snap.value))
    else equity
  }

  function ShiftForIncome(equity: map<int, int>, snap: Income, patch: IncomePatch): map<int, int> {
    if patch.currency.Set? then
      Adjust(Adjust(equity, snap.currency, -snap.value), patch.currency.value,
             if patch.value.Set? then patch.value.value else snap.value)
    else if patch.value.Set? then
      Adjust(equity, snap.currency, patch.value.value - snap.value)
    else equity
  }

  /** The transaction of `update_cost`. A row that is gone is updated without effect. */
  function CommitUpdateCost(t: Tables, id: int, snap: Cost, patch: CostPatch): Result<Tables, Error> {
    if id !in t.costs then Success(t.(equity := ShiftForCost(t.equity, snap, patch)))
    else
      var row := PatchCost(t.costs[id], patch);
      if HasNullCost(patch) then Failure(Integrity)
      else if row.currency !in t.equity || row.category !in t.categories then Failure(BadInput)
      else Success(t.(costs := t.costs[id := row], equity := ShiftForCost(t.equity, snap, patch)))
  }

  function CommitUpdateIncome(t: Tables, id: int, snap: Income, patch: IncomePatch): Result<Tables, Error> {
    if id !in t.incomes then Success(t.(equity := ShiftForIncome(t.equity, snap, patch)))
    else
      var row := PatchIncome(t.incomes[id], patch);
      if HasNullIncome(patch) then Failure(Integrity)
      else if row.currency !in t.equity then Failure(BadInput)
      else Success(t.(incomes := t.incomes[id := row], equity := ShiftForIncome(t.equity, snap, patch)))
  }

  function CommitDeleteCost(t: Tables, id: int, snap: Cost): Tables {
    t.(costs := t.costs - {id}, equity := Adjust(t.equity, snap.currency, snap.value))
  }

  function CommitDeleteIncome(t: Tables, id: int, snap: Income): Tables {
    t.(incomes := t.incomes - {id}, equity := Adjust(t.equity, snap.currency, -snap.value))
  }

  function CommitDeleteExchange(t: Tables, id: int, snap: Exchange): Tables {
    t.(exchanges := t.exchanges - {id},
       equity := Adjust(Adjust(t.equity, snap.fromCurrency, snap.fromValue), snap.toCurrency, -snap.toValue))
  }

  predicate CurrencyUsed(t: Tables, c: int) {
    || (exists id :: id in t.costs && t.costs[id].currency == c)
    || (exists id :: id in t.incomes && t.incomes[id].currency == c)
    || (exists id :: id in t.exchanges && t.exchanges[id].fromCurrency == c)
    || (exists id :: id in t.exchanges && t.exchanges[id].toCurrency == c)
  }

  function DeleteCurrency(t: Tables, c: int): Result<Tables, Error> {
    if CurrencyUsed(t, c) then Failure(InUse) else Success(t.(equity := t.equity - {c}))
  }

  // ------------------------------------------------------------------
  // The whole request, when nothing happens between its read and its commit
  // ------------------------------------------------------------------

  function UpdateCost(t: Tables, id: int, patch: CostPatch): Result<Tables, Error> {
    if id !in t.costs then Failure(NotFound)
    else
      var deduped := DedupCost(t.costs[id], patch);
      if deduped == EmptyCostPatch then Failure(NothingToUpdate)
      else CommitUpdateCost(t, id, t.costs[id], deduped)
  }

  function UpdateIncome(t: Tables, id: int, patch: IncomePatch): Result<Tables, Error> {
    if id !in t.incomes then Failure(NotFound)
    else
      var deduped := DedupIncome(t.incomes[id], patch);
      if deduped == EmptyIncomePatch then Failure(NothingToUpdate)
      else CommitUpdateIncome(t, id, t.incomes[id], deduped)
  }

  function DeleteCost(t: Tables, id: int): Result<Tables, Error> {
    if id !in t.costs then Failure(NotFound) else Success(CommitDeleteCost(t, id, t.costs[id]))
  }

  function DeleteIncome(t: Tables, id: int): Result<Tables, Error> {
    if id !in t.incomes then Failure(NotFound) else Success(CommitDeleteIncome(t, id, t.incomes[id]))
  }

  function DeleteExchange(t: Tables, id: int): Result<Tables, Error> {
    if id !in t.exchanges then Failure(NotFound) else Success(CommitDeleteExchange(t, id, t.exchanges[id]))
  }

  // ------------------------------------------------------------------
  // Referential integrity
  // ------------------------------------------------------------------

  /** Every row refers to an existing currency, category and user. */
  ghost predicate ForeignKeys(t: Tables) {
    && (forall id :: id in t.costs ==>
          t.costs[id].currency in t.equity && t.costs[id].category in t.categories && t.costs[id].user in t.users)
    && (forall id :: id in t.incomes ==> t.incomes[id].currency in t.equity && t.incomes[id].user in t.users)
    && (forall id :: id in t.exchanges ==>
          t.exchanges[id].fromCurrency in t.equity && t.exchanges[id].toCurrency in t.equity && t.exchanges[id].user in t.users)
  }

  // ------------------------------------------------------------------
  // The gap between the stored equity and the rows
  // ------------------------------------------------------------------

  /** Stored equity minus what the rows say, for a currency that opened with `opening`. */
  ghost function Gap(t: Tables, opening: int, c: int): int
    requires c in t.equity
  {
    t.equity[c] - opening - Balance(t, c)
  }

  lemma AddCostGap(t: Tables, id: int, row: Cost, c: int)
    requires id !in t.costs && c in t.equity && AddCost(t, id, row).Success?
    ensures c in AddCost(t, id, row).value.equity
    ensures Gap(AddCost(t, id, row).value, 0, c) == Gap(t, 0, c)
  {
    SumInsert(t.costs, id, row, CostTerm(c));
  }

  lemma AddIncomeGap(t: Tables, id: int, row: Income, c: int)
    requires id !in t.incomes && c in t.equity && AddIncome(t, id, row).Success?
    ensures c in AddIncome(t, id, row).value.equity
    ensures Gap(AddIncome(t, id, row).value, 0, c) == Gap(t, 0, c)
  {
    SumInsert(t.incomes, id, row, IncomeTerm(c));
  }

  lemma AddExchangeGap(t: Tables, id: int, row: Exchange, c: int)
    requires id !in t.exchanges && c in t.equity && AddExchange(t, id, row).Success?
    ensures c in AddExchange(t, id, row).value.equity
    ensures Gap(AddExchange(t, id, row).value, 0, c) == Gap(t, 0, c)
  {
    SumInsert(t.exchanges, id, row, ExchangeTerm(c));
  }

  /** What an update is worth, applied to a given row. */
  function CostShift(row: Cost, patch: CostPatch, c: int): int {
    CostEffect(PatchCost(row, patch), c) - CostEffect(row, c)
  }

  function IncomeShift(row: Income, patch: IncomePatch, c: int): int {
    IncomeEffect(PatchIncome(row, patch), c) - IncomeEffect(row, c)
  }

  /** The four branches of `update_cost` all move equity by the update's worth on the row as read. */
  lemma ShiftForCostIs(equity: map<int, int>, snap: Cost, patch: CostPatch, c: int)
    ensures ShiftForCost(equity, snap, patch).Keys == equity.Keys
    ensures c in equity ==> ShiftForCost(equity, snap, patch)[c] == equity[c] + CostShift(snap, patch, c)
  {
  }

  lemma ShiftForIncomeIs(equity: map<int, int>, snap: Income, patch: IncomePatch, c: int)
    ensures ShiftForIncome(equity, snap, patch).Keys == equity.Keys
    ensures c in equity ==> ShiftForIncome(equity, snap, patch)[c] == equity[c] + IncomeShift(snap, patch, c)
  {
  }

  /**
   A committed update moves the gap by its worth on the row as read minus its
   worth on the row as it is now; a row that is gone counts for nothing.
   */
  lemma UpdateCostGap(t: Tables, id: int, snap: Cost, patch: CostPatch, c: int)
    requires c in t.equity && CommitUpdateCost(t, id, snap, patch).Success?
    ensures var t' := CommitUpdateCost(t, id, snap, patch).value;
            && c in t'.equity
            && Gap(t', 0, c) == Gap(t, 0, c) + CostShift(snap, patch, c)
                                - (if id in t.costs then CostShift(t.costs[id], patch, c) else 0)
  {
    ShiftForCostIs(t.equity, snap, patch, c);
    if id in t.costs {
      SumUpdate(t.costs, id, PatchCost(t.costs[id], patch), CostTerm(c));
    }
  }

  lemma UpdateIncomeGap(t: Tables, id: int, snap: Income, patch: IncomePatch, c: int)
    requires c in t.equity && CommitUpdateIncome(t, id, snap, patch).Success?
    ensures var t' := CommitUpdateIncome(t, id, snap, patch).value;
            && c in t'.equity
            && Gap(t', 0, c) == Gap(t, 0, c) + IncomeShift(snap, patch, c)
                                - (if id in t.incomes then IncomeShift(t.incomes[id], patch, c) else 0)
  {
    ShiftForIncomeIs(t.equity, snap, patch, c);
    if id in t.incomes {
      SumUpdate(t.incomes, id, PatchIncome(t.incomes[id], patch), IncomeTerm(c));
    }
  }

  /** A committed delete moves the gap by what the row is worth now minus what it was worth when read. */
  lemma DeleteCostGap(t: Tables, id: int, snap: Cost, c: int)
    requires c in t.equity
    ensures var t' := CommitDeleteCost(t, id, snap);
            && c in t'.equity
            && Gap(t', 0, c) == Gap(t, 0, c) - CostEffect(snap, c)
                                + (if id in t.costs then CostEffect(t.costs[id], c) else 0)
  {
    SumDelete(t.costs, id, CostTerm(c));
  }

  lemma DeleteIncomeGap(t: Tables, id: int, snap: Income, c: int)
    requires c in t.equity
    ensures var t' := CommitDeleteIncome(t, id, snap);
            && c in t'.equity
            && Gap(t', 0, c) == Gap(t, 0, c) - IncomeEffect(snap, c)
                                + (if id in t.incomes then IncomeEffect(t.incomes[id], c) else 0)
  {
    SumDelete(t.incomes, id, IncomeTerm(c));
  }

  lemma DeleteExchangeGap(t: Tables, id: int, snap: Exchange, c: int)
    requires c in t.equity
    ensures var t' := CommitDeleteExchange(t, id, snap);
            && c in t'.equity
            && Gap(t', 0, c) == Gap(t, 0, c) - ExchangeEffect(snap, c)
                                + (if id in t.exchanges then ExchangeEffect(t.exchanges[id], c) else 0)
  {
    SumDelete(t.exchanges, id, ExchangeTerm(c));
  }

  // ------------------------------------------------------------------
  // Updates as delete-then-add
  // ------------------------------------------------------------------

  /**
   A successful update leaves the very tables that deleting the row and adding
   the new one leave, exactly when the new value is one that an add accepts.
   */
  lemma UpdateCostIsDeleteThenAdd(t: Tables, id: int, patch: CostPatch)
    requires ForeignKeys(t) && UpdateCost(t, id, patch).Success?
    ensures AddCost(DeleteCost(t, id).value, id, PatchCost(t.costs[id], patch)) == UpdateCost(t, id, patch) <==>
            PatchCost(t.costs[id], patch).value >= 0
  {
    var before, row := t.costs[id], PatchCost(t.costs[id], patch);
    var deduped := DedupCost(before, patch);
    assert PatchCost(before, deduped) == row;
    var deleted := DeleteCost(t, id).value;
    assert deleted.costs[id := row] == t.costs[id := row];
    var e1, e2 := Adjust(deleted.equity, row.currency, -row.value), ShiftForCost(t.equity, before, deduped);
    forall c | c in t.equity ensures e1[c] == e2[c] {
      ShiftForCostIs(t.equity, before, deduped, c);
    }
    ShiftForCostIs(t.equity, before, deduped, 0);
    assert e1 == e2;
  }

  lemma UpdateIncomeIsDeleteThenAdd(t: Tables, id: int, patch: IncomePatch)
    requires ForeignKeys(t) && UpdateIncome(t, id, patch).Success?
    ensures AddIncome(DeleteIncome(t, id).value, id, PatchIncome(t.incomes[id], patch)) == UpdateIncome(t, id, patch) <==>
            PatchIncome(t.incomes[id], patch).value >= 0
  {
    var before, row := t.incomes[id], PatchIncome(t.incomes[id], patch);
    var deduped := DedupIncome(before, patch);
    assert PatchIncome(before, deduped) == row;
    var deleted := DeleteIncome(t, id).value;
    assert deleted.incomes[id := row] == t.incomes[id := row];
    var e1, e2 := Adjust(deleted.equity, row.currency, row.value), ShiftForIncome(t.equity, before, deduped);
    forall c | c in t.equity ensures e1[c] == e2[c] {
      ShiftForIncomeIs(t.equity, before, deduped, c);
    }
    ShiftForIncomeIs(t.equity, before, deduped, 0);
    assert e1 == e2;
  }

  function OnlyCostValue(value: int): CostPatch { EmptyCostPatch.(value := Set(value)) }
  function OnlyIncomeValue(value: int): IncomePatch { EmptyIncomePatch.(value := Set(value)) }

  /** An update to a negative value is committed and raises the equity; an add of the same row is refused. */
  lemma NegativeCostAccepted(t: Tables, id: int, value: int)
    requires ForeignKeys(t) && id in t.costs && value < 0 && value != t.costs[id].value
    ensures var updated, row := UpdateCost(t, id, OnlyCostValue(value)), PatchCost(t.costs[id], OnlyCostValue(value));
            && updated.Success? && updated.value.costs[id].value == value
            && updated.value.equity[row.currency] == t.equity[row.currency] + t.costs[id].value - value
            && AddCost(DeleteCost(t, id).value, id, row) == Failure(DatabaseError)
  {
    var deduped := DedupCost(t.costs[id], OnlyCostValue(value));
    assert deduped == OnlyCostValue(value);
    ShiftForCostIs(t.equity, t.costs[id], deduped, t.costs[id].currency);
  }

  lemma NegativeIncomeAccepted(t: Tables, id: int, value: int)
    requires ForeignKeys(t) && id in t.incomes && value < 0 && value != t.incomes[id].value
    ensures var updated, row := UpdateIncome(t, id, OnlyIncomeValue(value)), PatchIncome(t.incomes[id], OnlyIncomeValue(value));
            && updated.Success? && updated.value.incomes[id].value == value
            && updated.value.equity[row.currency] == t.equity[row.currency] - t.incomes[id].value + value
            && AddIncome(DeleteIncome(t, id).value, id, row) == Failure(DatabaseError)
  {
    var deduped := DedupIncome(t.incomes[id], OnlyIncomeValue(value));
    assert deduped == OnlyIncomeValue(value);
    ShiftForIncomeIs(t.equity, t.incomes[id], deduped, t.incomes[id].currency);
  }
}
