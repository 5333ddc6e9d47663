/** The merged list of costs, incomes and exchanges: filters pushed into each branch, and order. */
module Listing {
  import opened Wrappers
  import opened Ledger

  datatype Kind = CostKind | IncomeKind | ExchangeKind

  /** A row of one of the three tables. */
  datatype Entry =
    | CostEntry(id: int, cost: Cost)
    | IncomeEntry(id: int, income: Income)
    | ExchangeEntry(id: int, exchange: Exchange)

  /** `matches` stands for the names that the ILIKE pattern accepts. */
  datatype ListFilter = ListFilter(
    onlyMine: bool,
    currency: Option<int>,
    dates: Option<(int, int)>,
    category: Option<int>,
    matches: Option<string -> bool>,
    minCents: Option<int>,
    operation: Option<Kind>)

  /** One WHERE condition. */
  datatype Condition =
    | OfUser(user: int)
    | InCurrency(currency: int)
    | Between(first: int, last: int)
    | InCategory(category: int)
    | Like(matches: string -> bool)
    | AtLeast(cents: int)

  datatype Query = Query(kind: Kind, conditions: seq<Condition>)

  // ------------------------------------------------------------------
  // Columns
  // ------------------------------------------------------------------

  function KindOf(e: Entry): Kind {
    match e
    case CostEntry(_, _) => CostKind
    case IncomeEntry(_, _) => IncomeKind
    case ExchangeEntry(_, _) => ExchangeKind
  }

  function DateOf(e: Entry): int {
    match e
    case CostEntry(_, row) => row.date
    case IncomeEntry(_, row) => row.date
    case ExchangeEntry(_, row) => row.date
  }

  function UserOf(e: Entry): int {
    match e
    case CostEntry(_, row) => row.user
    case IncomeEntry(_, row) => row.user
    case ExchangeEntry(_, row) => row.user
  }

  function CurrencyOf(e: Entry): int {
    match e
    case CostEntry(_, row) => row.currency
    case IncomeEntry(_, row) => row.currency
    case ExchangeEntry(_, row) => row.toCurrency
  }

  /** The column that a minimum is compared with: for an exchange, what was paid. */
  function AmountOf(e: Entry): int {
    match e
    case CostEntry(_, row) => row.value
    case IncomeEntry(_, row) => row.value
    case ExchangeEntry(_, row) => row.fromValue
  }

  predicate NameMatches(e: Entry, matches: string -> bool) {
    match e
    case CostEntry(_, row) => matches(row.name)
    case IncomeEntry(_, row) => matches(row.name)
    case ExchangeEntry(_, _) => false
  }

  function Rows(t: Tables): set<Entry> {
    (set id | id in t.costs :: CostEntry(id, t.costs[id])) +
    (set id | id in t.incomes :: IncomeEntry(id, t.incomes[id])) +
    (set id | id in t.exchanges :: ExchangeEntry(id, t.exchanges[id]))
  }

  // ------------------------------------------------------------------
  // Filters, on one row and as queries
  // ------------------------------------------------------------------

  /** What the filter asks of a row. Categories concern costs only, names all but exchanges. */
  predicate Passes(f: ListFilter, user: int, e: Entry) {
    && (f.operation.Some? ==> KindOf(e) == f.operation.value)
    && (f.onlyMine ==> UserOf(e) == user)
    && (f.currency.Some? ==> CurrencyOf(e) == f.currency.value)
    && (f.dates.Some? ==> f.dates.value.0 <= DateOf(e) <= f.dates.value.1)
    && (f.category.Some? && e.CostEntry? ==> e.cost.category == f.category.value)
    && (f.matches.Some? && !e.ExchangeEntry? ==> NameMatches(e, f.matches.value))
    && (f.minCents.Some? ==> AmountOf(e) >= f.minCents.value)
  }

  predicate Holds(c: Condition, e: Entry) {
    match c
    case OfUser(user) => UserOf(e) == user
    case InCurrency(currency) => CurrencyOf(e) == currency
    case Between(first, last) => first <= DateOf(e) <= last
    case InCategory(category) => e.CostEntry? && e.cost.category == category
    case Like(matches) => NameMatches(e, matches)
    case AtLeast(cents) => AmountOf(e) >= cents
  }

  predicate Selects(q: Query, e: Entry) {
    KindOf(e) == q.kind && forall i :: 0 <= i < |q.conditions| ==> Holds(q.conditions[i], e)
  }

  function Where(q: Query, c: Condition): (narrower: Query)
    ensures narrower.kind == q.kind
    ensures forall e :: Selects(narrower, e) <==> Selects(q, e) && Holds(c, e)
  {
    var narrower := Query(q.kind, q.conditions + [c]);
    assert forall e :: Selects(narrower, e) ==> Holds(narrower.conditions[|q.conditions|], e);
    assert forall i :: 0 <= i < |q.conditions| ==> narrower.conditions[i] == q.conditions[i];
    narrower
  }

  /** Together the queries select what passes, and no two of them the same row. */
  ghost predicate Pushed(queries: seq<Query>, f: ListFilter, user: int) {
    && (forall i, k :: 0 <= i < k < |queries| ==> queries[i].kind != queries[k].kind)
    && forall e :: Passes(f, user, e) <==> SelectedBy(queries, e)
  }

  predicate SelectedBy(queries: seq<Query>, e: Entry) {
    exists i :: 0 <= i < |queries| && Selects(queries[i], e)
  }

  /** The query of one branch selects the rows of its table that pass. */
  ghost predicate Means(q: Query, kind: Kind, f: ListFilter, user: int) {
    q.kind == kind && forall e :: Selects(q, e) <==> KindOf(e) == kind && Passes(f, user, e)
  }

  /** The conditions on owner, currency and date, the same for each branch. */
  method AddShared(kind: Kind, f: ListFilter, user: int) returns (q: Query)
    ensures Means(q, kind, f.(operation := None, category := None, matches := None, minCents := None), user)
  {
    q := Query(kind, []);
    if f.onlyMine {
      q := Where(q, OfUser(user));
    }
    if f.currency.Some? {
      q := Where(q, InCurrency(f.currency.value));
    }
    if f.dates.Some? {
      q := Where(q, Between(f.dates.value.0, f.dates.value.1));
    }
  }

  method AddCategory(q: Query, f: ListFilter, user: int) returns (narrower: Query)
    requires Means(q, CostKind, f.(operation := None, category := None, matches := None, minCents := None), user)
    ensures Means(narrower, CostKind, f.(operation := None, matches := None, minCents := None), user)
  {
    narrower := q;
    if f.category.Some? {
      narrower := Where(narrower, InCategory(f.category.value));
    }
  }

  method AddPattern(q: Query, kind: Kind, f: ListFilter, user: int) returns (narrower: Query)
    requires Means(q, kind, f.(operation := None, matches := None, minCents := None), user) && kind != ExchangeKind
    ensures Means(narrower, kind, f.(operation := None, minCents := None), user)
  {
    narrower := q;
    if f.matches.Some? {
      narrower := Where(narrower, Like(f.matches.value));
    }
  }

  method AddMinimum(q: Query, kind: Kind, f: ListFilter, user: int) returns (narrower: Query)
    requires Means(q, kind, f.(operation := None, minCents := None), user)
    ensures Means(narrower, kind, f.(operation := None), user)
  {
    narrower := q;
    if f.minCents.Some? {
      narrower := Where(narrower, AtLeast(f.minCents.value));
    }
  }

  /** A condition that is never added to a branch is one its rows pass anyway. */
  lemma CategoriesAreForCosts(q: Query, kind: Kind, f: ListFilter, user: int)
    requires kind != CostKind
    ensures Means(q, kind, f.(category := None), user) <==> Means(q, kind, f, user)
  {
    assert forall e :: KindOf(e) == kind ==> (Passes(f.(category := None), user, e) <==> Passes(f, user, e));
  }

  lemma ExchangesHaveNoName(q: Query, f: ListFilter, user: int)
    ensures Means(q, ExchangeKind, f.(matches := None), user) <==> Means(q, ExchangeKind, f, user)
  {
    assert forall e :: KindOf(e) == ExchangeKind ==> (Passes(f.(matches := None), user, e) <==> Passes(f, user, e));
  }

  /** The conditions of each branch, and the branches that the operation asks for. */
  method BuildQueries(f: ListFilter, user: int) returns (queries: seq<Query>)
    ensures Pushed(queries, f, user)
  {
    var costs := AddShared(CostKind, f, user);
    var incomes := AddShared(IncomeKind, f, user);
    var exchanges := AddShared(ExchangeKind, f, user);
    CategoriesAreForCosts(incomes, IncomeKind, f.(operation := None, matches := None, minCents := None), user);
    CategoriesAreForCosts(exchanges, ExchangeKind, f.(operation := None, matches := None, minCents := None), user);
    ExchangesHaveNoName(exchanges, f.(operation := None, minCents := None), user);
    costs := AddCategory(costs, f, user);
    costs := AddPattern(costs, CostKind, f, user);
    incomes := AddPattern(incomes, IncomeKind, f, user);
    costs := AddMinimum(costs, CostKind, f, user);
    incomes := AddMinimum(incomes, IncomeKind, f, user);
    exchanges := AddMinimum(exchanges, ExchangeKind, f, user);
    match f.operation {
      case None => queries := [costs, incomes, exchanges];
      case Some(CostKind) => queries := [costs];
      case Some(IncomeKind) => queries := [incomes];
      case Some(ExchangeKind) => queries := [exchanges];
    }
    Combined(costs, incomes, exchanges, queries, f, user);
  }

  lemma Combined(costs: Query, incomes: Query, exchanges: Query, queries: seq<Query>, f: ListFilter, user: int)
    requires Means(costs, CostKind, f.(operation := None), user)
    requires Means(incomes, IncomeKind, f.(operation := None), user)
    requires Means(exchanges, ExchangeKind, f.(operation := None), user)
    requires queries == match f.operation
                        case None => [costs, incomes, exchanges]
                        case Some(CostKind) => [costs]
                        case Some(IncomeKind) => [incomes]
                        case Some(ExchangeKind) => [exchanges]
    ensures Pushed(queries, f, user)
  {
    var every := f.(operation := None);
    forall e ensures Passes(f, user, e) <==> SelectedBy(queries, e) {
      assert Selects(costs, e) <==> KindOf(e) == CostKind && Passes(every, user, e);
      assert Selects(incomes, e) <==> KindOf(e) == IncomeKind && Passes(every, user, e);
      assert Selects(exchanges, e) <==> KindOf(e) == ExchangeKind && Passes(every, user, e);
      if f.operation.None? {
        assert queries[0] == costs && queries[1] == incomes && queries[2] == exchanges;
      } else {
        assert queries == [queries[0]];
      }
    }
  }

  function Branch(t: Tables, q: Query): set<Entry> {
    set e | e in Rows(t) && Selects(q, e)
  }

  /** UNION ALL keeps duplicates. */
  function UnionAll(t: Tables, queries: seq<Query>): multiset<Entry> {
    if |queries| == 0 then multiset{}
    else UnionAll(t, queries[..|queries| - 1]) + multiset(Branch(t, queries[|queries| - 1]))
  }

  function Passing(t: Tables, f: ListFilter, user: int): set<Entry> {
    set e | e in Rows(t) && Passes(f, user, e)
  }

  lemma {:induction false} UnionCounts(t: Tables, queries: seq<Query>, e: Entry)
    requires forall i, k :: 0 <= i < k < |queries| ==> queries[i].kind != queries[k].kind
    ensures UnionAll(t, queries)[e] == if e in Rows(t) && SelectedBy(queries, e) then 1 else 0
    decreases |queries|
  {
    if |queries| > 0 {
      var front, last := queries[..|queries| - 1], queries[|queries| - 1];
      UnionCounts(t, front, e);
      assert forall i :: 0 <= i < |front| ==> front[i] == queries[i];
      assert SelectedBy(queries, e) <==> SelectedBy(front, e) || Selects(last, e);
      assert !(SelectedBy(front, e) && Selects(last, e));
    }
  }

  /** Filtering every branch before the union is filtering the merged rows: each passing row comes out once. */
  lemma PushDown(t: Tables, queries: seq<Query>, f: ListFilter, user: int)
    requires Pushed(queries, f, user)
    ensures UnionAll(t, queries) == multiset(Passing(t, f, user))
  {
    forall e ensures UnionAll(t, queries)[e] == multiset(Passing(t, f, user))[e] {
      UnionCounts(t, queries, e);
      assert Passes(f, user, e) <==> SelectedBy(queries, e);
    }
  }

  // ------------------------------------------------------------------
  // Order
  // ------------------------------------------------------------------

  /** ORDER BY timestamp DESC, id DESC allows a before b. */
  predicate MayPrecede(a: Entry, b: Entry) {
    DateOf(a) > DateOf(b) || (DateOf(a) == DateOf(b) && a.id >= b.id)
  }

  predicate Ordered(list: seq<Entry>) {
    forall i, k :: 0 <= i < k < |list| ==> MayPrecede(list[i], list[k])
  }

  /** An answer of the ordered query. */
  predicate IsAnswer(rows: multiset<Entry>, list: seq<Entry>) {
    multiset(list) == rows && Ordered(list)
  }

  /** Two rows of different tables can share day and id; the query leaves their order open. */
  predicate Tied(a: Entry, b: Entry) {
    a != b && DateOf(a) == DateOf(b) && a.id == b.id
  }

  ghost predicate NoTies(rows: set<Entry>) {
    forall a, b :: a in rows && b in rows ==> !Tied(a, b)
  }

  ghost predicate OnceEach(rows: set<Entry>, list: seq<Entry>) {
    && (forall i, k :: 0 <= i < k < |list| ==> list[i] != list[k])
    && (forall e :: e in list <==> e in rows)
  }

  lemma AnswerListsOnce(rows: set<Entry>, list: seq<Entry>)
    requires multiset(list) == multiset(rows)
    ensures OnceEach(rows, list)
  {
    forall i, k | 0 <= i < k < |list| ensures list[i] != list[k] {
      var x, a, b := list[i], list[..k], list[k..];
      assert list == a + b;
      assert a[i] == x && x in multiset(a);
      assert multiset(list)[x] == multiset(a)[x] + multiset(b)[x];
      assert multiset(rows)[x] <= 1;
      assert x !in multiset(b);
      var y := b[0];
      assert y in multiset(b);
    }
    forall e ensures e in list <==> e in rows {
      assert e in list <==> e in multiset(list);
    }
  }

  function Filtered(list: seq<Entry>, f: ListFilter, user: int): seq<Entry> {
    if list == [] then []
    else
      var rest, last := Filtered(list[..|list| - 1], f, user), list[|list| - 1];
      if Passes(f, user, last) then rest + [last] else rest
  }

  lemma {:induction false} FilteredKeepsOrder(list: seq<Entry>, f: ListFilter, user: int)
    requires Ordered(list)
    ensures Ordered(Filtered(list, f, user))
    ensures forall e :: e in Filtered(list, f, user) ==> e in list
    ensures forall e :: multiset(Filtered(list, f, user))[e] == if Passes(f, user, e) then multiset(list)[e] else 0
    decreases |list|
  {
    if list != [] {
      var front, last := list[..|list| - 1], list[|list| - 1];
      assert list == front + [last];
      FilteredKeepsOrder(front, f, user);
      var rest := Filtered(front, f, user);
      forall i | 0 <= i < |rest| ensures MayPrecede(rest[i], last) {
        assert rest[i] in front;
        var k :| 0 <= k < |front| && front[k] == rest[i];
        assert list[k] == rest[i];
      }
    }
  }

  /** The merged list of everything, filtered row by row, is an answer of the pushed-down query. */
  lemma FilteredIsAnswer(t: Tables, queries: seq<Query>, f: ListFilter, user: int, all: seq<Entry>)
    requires Pushed(queries, f, user) && IsAnswer(multiset(Rows(t)), all)
    ensures IsAnswer(UnionAll(t, queries), Filtered(all, f, user))
  {
    PushDown(t, queries, f, user);
    FilteredKeepsOrder(all, f, user);
  }

  lemma FirstIsBest(list: seq<Entry>, e: Entry)
    requires Ordered(list) && e in list
    ensures e == list[0] || MayPrecede(list[0], e)
  {
    var k :| 0 <= k < |list| && list[k] == e;
  }

  lemma TailOnce(rows: set<Entry>, list: seq<Entry>)
    requires OnceEach(rows, list) && list != []
    ensures OnceEach(rows - {list[0]}, list[1..])
  {
    forall e ensures e in list[1..] <==> e in rows - {list[0]} {
      assert e in list <==> e == list[0] || e in list[1..];
      if e in list[1..] {
        var k :| 0 <= k < |list[1..]| && list[1..][k] == e;
        assert list[0] != list[k + 1];
      }
    }
  }

  lemma NoneListed(rows: set<Entry>, list: seq<Entry>)
    requires OnceEach(rows, list)
    ensures list == [] <==> rows == {}
  {
    if list != [] {
      var first := list[0];
      assert first in list;
    }
  }

  /** Without ties there is one answer. */
  lemma {:induction false} OneAnswer(rows: set<Entry>, a: seq<Entry>, b: seq<Entry>)
    requires NoTies(rows) && OnceEach(rows, a) && OnceEach(rows, b) && Ordered(a) && Ordered(b)
    ensures a == b
    decreases |a|
  {
    NoneListed(rows, a);
    NoneListed(rows, b);
    if a != [] {
      assert a[0] in a && b[0] in b;
      FirstIsBest(a, b[0]);
      FirstIsBest(b, a[0]);
      assert !Tied(a[0], b[0]);
      TailOnce(rows, a);
      TailOnce(rows, b);
      OneAnswer(rows - {a[0]}, a[1..], b[1..]);
      assert a == [a[0]] + a[1..] && b == [b[0]] + b[1..];
    }
  }

  /** Push-down and sort give the same list as filtering the merged list, when no two passing rows are tied. */
  lemma ListingIsFilteredMerge(t: Tables, queries: seq<Query>, f: ListFilter, user: int, all: seq<Entry>, list: seq<Entry>)
    requires Pushed(queries, f, user) && IsAnswer(multiset(Rows(t)), all) && IsAnswer(UnionAll(t, queries), list)
    requires NoTies(Passing(t, f, user))
    ensures list == Filtered(all, f, user)
  {
    PushDown(t, queries, f, user);
    FilteredIsAnswer(t, queries, f, user, all);
    AnswerListsOnce(Passing(t, f, user), list);
    AnswerListsOnce(Passing(t, f, user), Filtered(all, f, user));
    OneAnswer(Passing(t, f, user), list, Filtered(all, f, user));
  }

  function InsertInOrder(list: seq<Entry>, e: Entry): seq<Entry> {
    if list == [] || MayPrecede(list[|list| - 1], e) then list + [e]
    else InsertInOrder(list[..|list| - 1], e) + [list[|list| - 1]]
  }

  lemma {:induction false} InsertAdds(list: seq<Entry>, e: Entry)
    ensures multiset(InsertInOrder(list, e)) == multiset(list) + multiset{e}
    decreases |list|
  {
    if list != [] && !MayPrecede(list[|list| - 1], e) {
      var front, last := list[..|list| - 1], list[|list| - 1];
      InsertAdds(front, e);
      assert list == front + [last];
    }
  }

  /** Whatever comes before `last` in an ordered list, or may not follow it, may precede it. */
  lemma InsertedPrecedes(front: seq<Entry>, last: Entry, e: Entry, x: Entry)
    requires Ordered(front + [last]) && !MayPrecede(last, e) && x in multiset(InsertInOrder(front, e))
    ensures MayPrecede(x, last)
  {
    InsertAdds(front, e);
    if x != e {
      assert x in multiset(front);
      var k :| 0 <= k < |front| && front[k] == x;
      assert (front + [last])[k] == x && (front + [last])[|front|] == last;
    }
  }

  lemma {:induction false} InsertKeepsOrder(list: seq<Entry>, e: Entry)
    requires Ordered(list)
    ensures Ordered(InsertInOrder(list, e))
    decreases |list|
  {
    if list != [] && !MayPrecede(list[|list| - 1], e) {
      var front, last := list[..|list| - 1], list[|list| - 1];
      assert list == front + [last];
      InsertKeepsOrder(front, e);
      var longer := InsertInOrder(front, e);
      forall i | 0 <= i < |longer| ensures MayPrecede(longer[i], last) {
        assert longer[i] in multiset(longer);
        InsertedPrecedes(front, last, e, longer[i]);
      }
    }
  }

  ghost function SomeAnswer(rows: set<Entry>): (list: seq<Entry>)
    ensures IsAnswer(multiset(rows), list)
  {
    if rows == {} then []
    else
      var e :| e in rows;
      var rest := SomeAnswer(rows - {e});
      InsertKeepsOrder(rest, e);
      InsertAdds(rest, e);
      assert multiset(rows) == multiset(rows - {e}) + multiset{e};
      InsertInOrder(rest, e)
  }

  // ------------------------------------------------------------------
  // In terms of the three tables' columns
  // ------------------------------------------------------------------

  /** The merged rows are those of the three tables, each under its own id. */
  lemma RowsMean(t: Tables, e: Entry)
    ensures e in Rows(t) <==>
            match e
            case CostEntry(id, row) => id in t.costs && t.costs[id] == row
            case IncomeEntry(id, row) => id in t.incomes && t.incomes[id] == row
            case ExchangeEntry(id, row) => id in t.exchanges && t.exchanges[id] == row
  {
  }

  predicate Asks<T(==)>(wanted: Option<T>, actual: T) {
    wanted.Some? ==> wanted.value == actual
  }

  predicate AsksDate(dates: Option<(int, int)>, date: int) {
    dates.Some? ==> dates.value.0 <= date && date <= dates.value.1
  }

  /** A cost is asked for its owner, currency, day, category, name and value. */
  lemma CostPassesMeans(f: ListFilter, user: int, id: int, row: Cost)
    ensures Passes(f, user, CostEntry(id, row)) <==>
              && Asks(f.operation, CostKind) && (f.onlyMine ==> row.user == user)
              && Asks(f.currency, row.currency) && AsksDate(f.dates, row.date) && Asks(f.category, row.category)
              && (f.matches.Some? ==> f.matches.value(row.name)) && (f.minCents.Some? ==> f.minCents.value <= row.value)
  {
  }

  /** An income has no category to be asked for. */
  lemma IncomePassesMeans(f: ListFilter, user: int, id: int, row: Income)
    ensures Passes(f, user, IncomeEntry(id, row)) <==>
              && Asks(f.operation, IncomeKind) && (f.onlyMine ==> row.user == user)
              && Asks(f.currency, row.currency) && AsksDate(f.dates, row.date)
              && (f.matches.Some? ==> f.matches.value(row.name)) && (f.minCents.Some? ==> f.minCents.value <= row.value)
  {
  }

  /** An exchange is asked for the currency it was made to and for the value that was paid; a name does not matter. */
  lemma ExchangePassesMeans(f: ListFilter, user: int, id: int, row: Exchange)
    ensures Passes(f, user, ExchangeEntry(id, row)) <==>
              && Asks(f.operation, ExchangeKind) && (f.onlyMine ==> row.user == user)
              && Asks(f.currency, row.toCurrency) && AsksDate(f.dates, row.date)
              && (f.minCents.Some? ==> f.minCents.value <= row.fromValue)
  {
  }

  /** The day of a row, by its table's own column. */
  function Day(e: Entry): int {
    if e.CostEntry? then e.cost.date else if e.IncomeEntry? then e.income.date else e.exchange.date
  }

  /** Newest first, and within a day the highest id first. */
  lemma NewestFirst(list: seq<Entry>)
    ensures Ordered(list) <==>
            forall i, k :: 0 <= i < k < |list| ==>
              Day(list[i]) > Day(list[k]) || (Day(list[i]) == Day(list[k]) && list[i].id >= list[k].id)
  {
    assert forall i, k :: 0 <= i < |list| && 0 <= k < |list| ==>
             (MayPrecede(list[i], list[k]) <==>
              Day(list[i]) > Day(list[k]) || (Day(list[i]) == Day(list[k]) && list[i].id >= list[k].id));
  }
}
