/** Paging through the merged list: one response, a walk over all pages, and when it shows every row once. */
module Paging {
  import opened Wrappers
  import opened Listing

  datatype PageError = WrongOffset | WrongLimit

  datatype Response = Response(items: seq<Entry>, context: int, left: int)

  /** OFFSET and LIMIT; 0 adds neither. */
  function Paginate(list: seq<Entry>, offset: int, limit: int): Result<seq<Entry>, PageError> {
    if offset < 0 then Failure(WrongOffset)
    else if limit < 0 then Failure(WrongLimit)
    else
      var rest := if offset <= |list| then list[offset..] else [];
      Success(if 0 < limit <= |rest| then rest[..limit] else rest)
  }

  /** `context or 0`, `limit or 10` */
  function Asked(context: Option<int>, limit: Option<int>): (int, int) {
    (if context.Some? then context.value else 0,
     if limit.Some? && limit.value != 0 then limit.value else 10)
  }

  function Respond(list: seq<Entry>, context: Option<int>, limit: Option<int>): Result<Response, PageError> {
    var (offset, size) := Asked(context, limit);
    match Paginate(list, offset, size)
    case Failure(why) => Failure(why)
    case Success(items) =>
      Success(if items == [] then Response([], 0, 0)
              else Response(items, offset + |items|, |list| - (offset + |items|)))
  }

  /** A page: rows from the offset on, at most `size` of them, and what is left after it. */
  predicate IsPage(list: seq<Entry>, offset: nat, size: int, r: Response) {
    if offset >= |list| then r == Response([], 0, 0)
    else
      && r.items != [] && |r.items| <= size
      && r.items <= list[offset..]
      && r.context == offset + |r.items| && r.context + r.left == |list| && r.left >= 0
      && (r.left > 0 ==> |r.items| == size)
  }

  /** `_add_pagination_filters`: negative arguments are refused, size 0 means no limit. */
  lemma PageOf(list: seq<Entry>, offset: int, size: int)
    ensures Paginate(list, offset, size) == Failure(WrongOffset) <==> offset < 0
    ensures Paginate(list, offset, size) == Failure(WrongLimit) <==> offset >= 0 && size < 0
    ensures offset >= |list| && size >= 0 ==> Paginate(list, offset, size) == Success([])
    ensures 0 <= offset < |list| && size >= 0 ==>
              && Paginate(list, offset, size).Success?
              && var items := Paginate(list, offset, size).value;
                 && items != [] && items <= list[offset..]
                 && (offset + |items| < |list| ==> |items| == size)
                 && (size > 0 ==> |items| <= size)
  {
    if 0 <= offset < |list| {
      var rest := list[offset..];
      assert |rest| == |list| - offset;
    }
  }

  /** Exactly the requests with a negative context or limit fail; every other response is a page. */
  lemma ResponseMeans(list: seq<Entry>, context: Option<int>, limit: Option<int>)
    ensures var (offset, size) := Asked(context, limit);
            var r := Respond(list, context, limit);
            && (r.Failure? <==> offset < 0 || size < 0)
            && (r.Success? ==> IsPage(list, offset, size, r.value))
  {
    var (offset, size) := Asked(context, limit);
    PageOf(list, offset, size);
  }

  /** Without a context the list starts at its first row, and without a limit, or with limit 0, pages have ten rows. */
  lemma DefaultPage(list: seq<Entry>)
    ensures var shown := if |list| < 10 then |list| else 10;
            Respond(list, None, None) == Success(Response(list[..shown], shown, |list| - shown))
    ensures forall context, limit | limit == None || limit == Some(0) ::
              Respond(list, context, limit) == Respond(list, context, Some(10))
    ensures forall limit :: Respond(list, None, limit) == Respond(list, Some(0), limit)
  {
    assert list[0..] == list && list[..|list|] == list;
  }

  // ------------------------------------------------------------------
  // Walks
  // ------------------------------------------------------------------

  /**
   A client that follows `context` until nothing is left; `answers(c)` is what
   the database lists when the page at context c is asked for, and `left` falls
   on every page.
   */
  ghost function Walk(answers: nat -> seq<Entry>, total: nat, context: nat, limit: int): seq<Entry>
    requires limit >= 1 && forall i :: |answers(i)| == total
    decreases total - context
  {
    ResponseMeans(answers(context), Some(context), Some(limit));
    var r := Respond(answers(context), Some(context), Some(limit)).value;
    if r.left <= 0 then r.items else r.items + Walk(answers, total, r.context, limit)
  }

  lemma {:induction false} WalkOfOneAnswer(list: seq<Entry>, context: nat, limit: int)
    requires limit >= 1 && context <= |list|
    ensures Walk(_ => list, |list|, context, limit) == list[context..]
    decreases |list| - context
  {
    ResponseMeans(list, Some(context), Some(limit));
    var r := Respond(list, Some(context), Some(limit)).value;
    if r.left > 0 {
      WalkOfOneAnswer(list, r.context, limit);
      assert list[context..] == list[context..r.context] + list[r.context..];
    }
  }

  /** Over a fixed order, following `context` shows every row once, in order. */
  lemma WalkShowsAll(list: seq<Entry>, limit: int)
    requires limit >= 1
    ensures Walk(_ => list, |list|, 0, limit) == list
  {
    WalkOfOneAnswer(list, 0, limit);
  }

  /** The first row of the page that shows row j: the last multiple of the limit up to j. */
  function PageStart(j: nat, limit: int): (c: nat)
    requires limit >= 1
    ensures c <= j < c + limit
    decreases j
  {
    if j < limit then 0 else limit + PageStart(j - limit, limit)
  }

  lemma {:induction false} PageStartOf(c: nat, j: nat, limit: int)
    requires limit >= 1 && PageStart(c, limit) == c && c <= j < c + limit
    ensures PageStart(j, limit) == c
    decreases c
  {
    if c >= limit {
      PageStartOf(c - limit, j - limit, limit);
    }
  }

  lemma {:induction false} PageStartStarts(j: nat, limit: int)
    requires limit >= 1
    ensures PageStart(PageStart(j, limit), limit) == PageStart(j, limit)
    decreases j
  {
    if j >= limit {
      PageStartStarts(j - limit, limit);
    }
  }

  predicate SeenAt(seen: seq<Entry>, i: int, e: Entry) {
    0 <= i < |seen| && seen[i] == e
  }

  lemma SeenLater(first: seq<Entry>, rest: seq<Entry>, i: int, e: Entry)
    requires SeenAt(rest, i, e)
    ensures SeenAt(first + rest, |first| + i, e)
  {
  }

  /** One page of a walk that has come to a page start. */
  lemma WalkStep(answers: nat -> seq<Entry>, total: nat, c: nat, limit: int)
    requires limit >= 1 && c < total && forall i :: |answers(i)| == total
    ensures var walk, end := Walk(answers, total, c, limit), if c + limit < total then c + limit else total;
            walk == answers(c)[c..end] + if end < total then Walk(answers, total, end, limit) else []
  {
    ResponseMeans(answers(c), Some(c), Some(limit));
    var r := Respond(answers(c), Some(c), Some(limit)).value;
    assert r.items == answers(c)[c..r.context];
  }

  lemma {:induction false} WalkSize(answers: nat -> seq<Entry>, total: nat, c: nat, limit: int)
    requires limit >= 1 && c <= total && forall i :: |answers(i)| == total
    ensures |Walk(answers, total, c, limit)| == total - c
    decreases total - c
  {
    if c < total {
      WalkStep(answers, total, c, limit);
      if c + limit < total {
        WalkSize(answers, total, c + limit, limit);
      }
    } else {
      ResponseMeans(answers(c), Some(c), Some(limit));
    }
  }

  lemma SeenFirst(first: seq<Entry>, rest: seq<Entry>, i: nat)
    requires i < |first|
    ensures SeenAt(first + rest, i, first[i])
  {
  }

  /** The rows of the first page. */
  lemma WalkHere(answers: nat -> seq<Entry>, total: nat, c: nat, limit: int, j: nat)
    requires limit >= 1 && c <= j < total && j < c + limit && forall i :: |answers(i)| == total
    ensures SeenAt(Walk(answers, total, c, limit), j - c, answers(c)[j])
  {
    var end := if c + limit < total then c + limit else total;
    WalkStep(answers, total, c, limit);
    SeenFirst(answers(c)[c..end], if end < total then Walk(answers, total, end, limit) else [], j - c);
  }

  /** The rows of all later pages. */
  lemma WalkThere(answers: nat -> seq<Entry>, total: nat, c: nat, limit: int, j: nat, e: Entry)
    requires limit >= 1 && c + limit <= j < total && forall i :: |answers(i)| == total
    requires SeenAt(Walk(answers, total, c + limit, limit), j - (c + limit), e)
    ensures SeenAt(Walk(answers, total, c, limit), j - c, e)
  {
    WalkStep(answers, total, c, limit);
    SeenLater(answers(c)[c..c + limit], Walk(answers, total, c + limit, limit), j - (c + limit), e);
  }

  /** Row j of a walk is row j of the answer that its page was cut from. */
  lemma {:induction false} WalkAt(answers: nat -> seq<Entry>, total: nat, c: nat, limit: int, j: nat)
    requires limit >= 1 && PageStart(c, limit) == c && c <= j < total && forall i :: |answers(i)| == total
    ensures SeenAt(Walk(answers, total, c, limit), j - c, answers(PageStart(j, limit))[j])
    decreases total - c
  {
    if j < c + limit {
      PageStartOf(c, j, limit);
      WalkHere(answers, total, c, limit, j);
    } else {
      WalkAt(answers, total, c + limit, limit, j);
      WalkThere(answers, total, c, limit, j, answers(PageStart(j, limit))[j]);
    }
  }

  // ------------------------------------------------------------------
  // Answers that differ from page to page
  // ------------------------------------------------------------------

  ghost predicate AllAnswers(rows: set<Entry>, answers: nat -> seq<Entry>) {
    forall i :: IsAnswer(multiset(rows), answers(i)) && |answers(i)| == |rows|
  }

  /** A client with this limit sees every row once, however ties fall from page to page. */
  ghost predicate PagingIsSafe(rows: set<Entry>, limit: int)
    requires limit >= 1
  {
    forall answers | AllAnswers(rows, answers) :: OnceEach(rows, Walk(answers, |rows|, 0, limit))
  }

  /** No page of this list starts with a row that is tied with the last row of the page before. */
  predicate NoTieAcross(list: seq<Entry>, limit: int)
    requires limit >= 1
  {
    forall c :: 0 < c < |list| && PageStart(c, limit) == c ==> !Tied(list[c - 1], list[c])
  }

  predicate SameDayAndId(a: Entry, b: Entry) {
    DateOf(a) == DateOf(b) && a.id == b.id
  }

  lemma AnswerSize(rows: set<Entry>, list: seq<Entry>)
    requires multiset(list) == multiset(rows)
    ensures |list| == |rows|
  {
    assert |multiset(list)| == |list|;
  }

  /** Two ordered answers have the same days and ids in the same places. */
  lemma {:induction false} SamePlaces(rows: set<Entry>, a: seq<Entry>, b: seq<Entry>, j: nat)
    requires OnceEach(rows, a) && OnceEach(rows, b) && Ordered(a) && Ordered(b) && j < |a| && j < |b|
    ensures SameDayAndId(a[j], b[j])
    decreases |a|
  {
    assert a[0] in a && b[0] in b;
    FirstIsBest(a, b[0]);
    FirstIsBest(b, a[0]);
    if j > 0 {
      var m :| 0 <= m < |b| && b[m] == a[0];
      var rest := b[..m] + b[m + 1..];
      TailOnce(rows, a);
      DropOnce(rows, b, m);
      SamePlaces(rows - {a[0]}, a[1..], rest, j - 1);
      TiedUpTo(b, m, j);
    }
  }

  lemma DropOnce(rows: set<Entry>, list: seq<Entry>, m: nat)
    requires OnceEach(rows, list) && Ordered(list) && m < |list|
    ensures OnceEach(rows - {list[m]}, list[..m] + list[m + 1..]) && Ordered(list[..m] + list[m + 1..])
  {
    var rest := list[..m] + list[m + 1..];
    forall i | 0 <= i < |rest| ensures rest[i] == list[if i < m then i else i + 1] {
    }
    forall e ensures e in rest <==> e in rows - {list[m]} {
      if e in rows - {list[m]} {
        var k :| 0 <= k < |list| && list[k] == e;
        assert rest[if k < m then k else k - 1] == e;
      }
    }
  }

  /** Where the first row's equal sits at m, all rows up to there share its day and id. */
  lemma TiedUpTo(b: seq<Entry>, m: nat, j: nat)
    requires Ordered(b) && m < |b| && SameDayAndId(b[0], b[m]) && 0 < j < |b|
    ensures SameDayAndId((b[..m] + b[m + 1..])[j - 1], b[j])
  {
    if j <= m {
      assert j > 1 ==> MayPrecede(b[0], b[j - 1]) && MayPrecede(b[j - 1], b[m]);
      assert MayPrecede(b[0], b[j]);
      assert j < m ==> MayPrecede(b[j], b[m]);
    }
  }

  /** Rows that share day and id are on the same page. */
  lemma SamePage(list: seq<Entry>, limit: int, k: nat, j: nat)
    requires limit >= 1 && Ordered(list) && (forall a, b :: 0 <= a < b < |list| ==> list[a] != list[b]) && NoTieAcross(list, limit)
    requires k < j < |list| && SameDayAndId(list[k], list[j])
    ensures PageStart(k, limit) == PageStart(j, limit)
  {
    var c := PageStart(j, limit);
    PageStartStarts(j, limit);
    if c <= k {
      PageStartOf(c, k, limit);
    }
    assert k < c ==> (k < c - 1 ==> MayPrecede(list[k], list[c - 1])) && (c < j ==> MayPrecede(list[c], list[j])) && MayPrecede(list[c - 1], list[c]);
  }

  /** Whatever answer row j is shown from, in the list it is on j's page. */
  lemma ShownFromPage(rows: set<Entry>, list: seq<Entry>, other: seq<Entry>, limit: int, j: nat) returns (k: nat)
    requires limit >= 1 && OnceEach(rows, list) && OnceEach(rows, other) && Ordered(list) && Ordered(other) && NoTieAcross(list, limit)
    requires j < |list| && j < |other|
    ensures k < |list| && list[k] == other[j] && PageStart(k, limit) == PageStart(j, limit)
  {
    assert other[j] in other && other[j] in list;
    k :| 0 <= k < |list| && list[k] == other[j];
    SamePlaces(rows, list, other, j);
    if k < j {
      SamePage(list, limit, k, j);
    } else if j < k {
      SamePage(list, limit, j, k);
    }
  }

  lemma {:induction false} AllOfThem(rows: set<Entry>, seen: seq<Entry>)
    requires (forall i, k :: 0 <= i < k < |seen| ==> seen[i] != seen[k]) && (forall e :: e in seen ==> e in rows) && |seen| == |rows|
    ensures OnceEach(rows, seen)
    decreases |seen|
  {
    if seen != [] {
      var front, last := seen[..|seen| - 1], seen[|seen| - 1];
      assert seen == front + [last];
      forall e | e in front ensures e in rows - {last} {
        var i :| 0 <= i < |front| && front[i] == e;
        assert seen[i] == e;
      }
      AllOfThem(rows - {last}, front);
    }
  }

  /** Rows of the walk, each with the page it comes from. */
  lemma NoneTwice(rows: set<Entry>, list: seq<Entry>, answers: nat -> seq<Entry>, limit: int, i: nat, j: nat)
    requires limit >= 1 && IsAnswer(multiset(rows), list) && NoTieAcross(list, limit) && AllAnswers(rows, answers)
    requires i < j < |rows|
    ensures answers(PageStart(i, limit))[i] != answers(PageStart(j, limit))[j]
  {
    var a, b := answers(PageStart(i, limit)), answers(PageStart(j, limit));
    AnswerListsOnce(rows, list);
    AnswerSize(rows, list);
    AnswerListsOnce(rows, a);
    AnswerListsOnce(rows, b);
    var x := ShownFromPage(rows, list, a, limit, i);
    var y := ShownFromPage(rows, list, b, limit, j);
    assert PageStart(i, limit) == PageStart(j, limit) ==> a[i] != b[j];
  }

  lemma WalkIsOnceEach(rows: set<Entry>, list: seq<Entry>, answers: nat -> seq<Entry>, limit: int)
    requires limit >= 1 && IsAnswer(multiset(rows), list) && NoTieAcross(list, limit) && AllAnswers(rows, answers)
    ensures OnceEach(rows, Walk(answers, |rows|, 0, limit))
  {
    var seen := Walk(answers, |rows|, 0, limit);
    WalkSize(answers, |rows|, 0, limit);
    forall j | 0 <= j < |rows| ensures seen[j] == answers(PageStart(j, limit))[j] && seen[j] in rows {
      WalkAt(answers, |rows|, 0, limit, j);
      AnswerListsOnce(rows, answers(PageStart(j, limit)));
      assert seen[j] in answers(PageStart(j, limit));
    }
    forall i, j | 0 <= i < j < |rows| ensures seen[i] != seen[j] {
      NoneTwice(rows, list, answers, limit, i, j);
    }
    AllOfThem(rows, seen);
  }

  lemma NoTieAcrossIsSafe(rows: set<Entry>, list: seq<Entry>, limit: int)
    requires limit >= 1 && IsAnswer(multiset(rows), list) && NoTieAcross(list, limit)
    ensures PagingIsSafe(rows, limit)
  {
    forall answers: nat -> seq<Entry> | AllAnswers(rows, answers) ensures OnceEach(rows, Walk(answers, |rows|, 0, limit)) {
      WalkIsOnceEach(rows, list, answers, limit);
    }
  }

  function Swapped(list: seq<Entry>, i: nat): seq<Entry>
    requires i + 1 < |list|
  {
    list[i := list[i + 1]][i + 1 := list[i]]
  }

  lemma SwapTied(rows: multiset<Entry>, list: seq<Entry>, i: nat)
    requires IsAnswer(rows, list) && i + 1 < |list| && Tied(list[i], list[i + 1])
    ensures IsAnswer(rows, Swapped(list, i))
  {
    var a, b := list[..i], list[i + 2..];
    assert list == a + [list[i], list[i + 1]] + b;
    assert Swapped(list, i) == a + [list[i + 1], list[i]] + b;
    assert multiset([list[i], list[i + 1]]) == multiset([list[i + 1], list[i]]);
  }

  /** The database answers the page at i + 1 with two rows swapped, and every other page as before. */
  function SwappedOnce(list: seq<Entry>, i: nat): nat -> seq<Entry>
    requires i + 1 < |list|
  {
    var swapped := Swapped(list, i);
    c => if c == i + 1 then swapped else list
  }

  lemma SwappedAnswers(rows: set<Entry>, list: seq<Entry>, i: nat)
    requires IsAnswer(multiset(rows), list) && i + 1 < |list| && Tied(list[i], list[i + 1])
    ensures AllAnswers(rows, SwappedOnce(list, i))
  {
    SwapTied(multiset(rows), list, i);
    AnswerSize(rows, list);
  }

  /** If a page starts at i + 1, such answers show row i twice. */
  lemma SwapShowsTwice(rows: set<Entry>, list: seq<Entry>, i: nat, limit: int)
    requires limit >= 1 && |list| == |rows| && i + 1 < |list| && PageStart(i + 1, limit) == i + 1
    requires AllAnswers(rows, SwappedOnce(list, i))
    ensures !OnceEach(rows, Walk(SwappedOnce(list, i), |rows|, 0, limit))
  {
    var answers := SwappedOnce(list, i);
    assert PageStart(i, limit) <= i;
    WalkAt(answers, |rows|, 0, limit, i);
    WalkAt(answers, |rows|, 0, limit, i + 1);
    SeenTwice(rows, Walk(answers, |rows|, 0, limit), i, i + 1, list[i]);
  }

  lemma SeenTwice(rows: set<Entry>, seen: seq<Entry>, i: nat, j: nat, e: Entry)
    requires i < j && SeenAt(seen, i, e) && SeenAt(seen, j, e)
    ensures !OnceEach(rows, seen)
  {
  }

  lemma TieAcrossIsUnsafe(rows: set<Entry>, list: seq<Entry>, limit: int, c: nat)
    requires limit >= 1 && IsAnswer(multiset(rows), list)
    requires 0 < c < |list| && PageStart(c, limit) == c && Tied(list[c - 1], list[c])
    ensures !PagingIsSafe(rows, limit)
  {
    AnswerSize(rows, list);
    SwappedAnswers(rows, list, c - 1);
    SwapShowsTwice(rows, list, c - 1, limit);
  }

  /**
   Whatever the database answers from page to page, a client with this limit
   sees every row once exactly when no tie lies across two of its pages.
   */
  lemma PagingSafeIff(rows: set<Entry>, list: seq<Entry>, limit: int)
    requires limit >= 1 && IsAnswer(multiset(rows), list)
    ensures PagingIsSafe(rows, limit) <==> NoTieAcross(list, limit)
  {
    if NoTieAcross(list, limit) {
      NoTieAcrossIsSafe(rows, list, limit);
    } else {
      var c :| 0 < c < |list| && PageStart(c, limit) == c && Tied(list[c - 1], list[c]);
      TieAcrossIsUnsafe(rows, list, limit, c);
    }
  }

  lemma AdjacentTie(rows: set<Entry>, list: seq<Entry>) returns (i: nat)
    requires OnceEach(rows, list) && Ordered(list) && !NoTies(rows)
    ensures i + 1 < |list| && Tied(list[i], list[i + 1])
  {
    var a, b :| a in rows && b in rows && Tied(a, b);
    assert a in list && b in list;
    var j :| 0 <= j < |list| && list[j] == a;
    var k :| 0 <= k < |list| && list[k] == b;
    i := if j < k then j else k;
  }

  lemma EachRowItsPage(c: nat)
    ensures PageStart(c, 1) == c
  {
  }

  /** Paging is safe for every limit exactly when no two listed rows share day and id. */
  lemma EveryLimitSafeIff(rows: set<Entry>)
    ensures (forall limit :: limit >= 1 ==> PagingIsSafe(rows, limit)) <==> NoTies(rows)
  {
    var list := SomeAnswer(rows);
    AnswerListsOnce(rows, list);
    if NoTies(rows) {
      forall limit | limit >= 1 ensures PagingIsSafe(rows, limit) {
        forall c | 0 < c < |list| ensures !Tied(list[c - 1], list[c]) {
          assert list[c - 1] in list && list[c] in list;
        }
        PagingSafeIff(rows, list, limit);
      }
    } else {
      var i := AdjacentTie(rows, list);
      EachRowItsPage(i + 1);
      PagingSafeIff(rows, list, 1);
    }
  }
}
