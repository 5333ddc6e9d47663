/** The order of cost shortcuts on a user's screen. */
module Shortcuts {
  import opened Wrappers

  datatype Shortcut = Shortcut(user: int, position: int)

  datatype Move = Move(id: int, position: int)

  type Rows = map<int, Shortcut>

  datatype Refusal = BadPositions | DuplicateIds | NotOwned(missing: set<int>)

  // ------------------------------------------------------------------
  // Listings and blocks
  // ------------------------------------------------------------------

  function Own(rows: Rows, user: int): set<int> {
    set id | id in rows && rows[id].user == user
  }

  function Position(rows: Rows, id: int): int {
    if id in rows then rows[id].position else 0
  }

  predicate Distinct(s: seq<int>) {
    forall i, k :: 0 <= i < k < |s| ==> s[i] != s[k]
  }

  function SetOf(s: seq<int>): set<int> {
    set x | x in s
  }

  /** Every member of the set, once. */
  predicate Lists(ids: set<int>, listing: seq<int>) {
    Distinct(listing) && SetOf(listing) == ids
  }

  predicate Before(rows: Rows, a: int, b: int) {
    || Position(rows, a) < Position(rows, b)
    || (Position(rows, a) == Position(rows, b) && a < b)
  }

  /** `ORDER BY ui_position_index, id` */
  predicate Sorted(rows: Rows, listing: seq<int>) {
    forall i, k :: 0 <= i < k < |listing| ==> Before(rows, listing[i], listing[k])
  }

  predicate InUiOrder(rows: Rows, user: int, listing: seq<int>) {
    Lists(Own(rows, user), listing) && Sorted(rows, listing)
  }

  /** The listing occupies the positions start, start + 1, and so on. */
  predicate Follow(rows: Rows, listing: seq<int>, start: int) {
    forall i :: 0 <= i < |listing| ==> Position(rows, listing[i]) == start + i
  }

  /** The user's rows occupy a block of positions. */
  predicate Block(rows: Rows, user: int, listing: seq<int>, start: int) {
    && Lists(Own(rows, user), listing)
    && Follow(rows, listing, start)
  }

  ghost predicate Contiguous(rows: Rows, user: int) {
    exists listing, start :: Block(rows, user, listing, start) && (start == 0 || start == 1)
  }

  /** A row `last_cost_shortcut` may return. */
  predicate IsLast(rows: Rows, user: int, last: Option<int>) {
    match last
    case None => Own(rows, user) == {}
    case Some(id) => id in Own(rows, user) && forall other :: other in Own(rows, user) ==> Position(rows, other) <= Position(rows, id)
  }

  // ------------------------------------------------------------------
  // What the operations do to the rows
  // ------------------------------------------------------------------

  /** UPDATE ... WHERE id = ... AND user_id = ... */
  function Place(rows: Rows, user: int, move: Move): Rows {
    if move.id in rows && rows[move.id].user == user
    then rows[move.id := Shortcut(user, move.position)]
    else rows
  }

  function Placed(rows: Rows, user: int, moves: seq<Move>): Rows {
    if moves == [] then rows
    else Place(Placed(rows, user, moves[..|moves| - 1]), user, moves[|moves| - 1])
  }

  function Numbered(listing: seq<int>): seq<Move> {
    seq(|listing|, i requires 0 <= i < |listing| => Move(listing[i], i + 1))
  }

  /** Rows that `rebuild_ui_positions` has to write. */
  function Misplaced(rows: Rows, listing: seq<int>): set<int> {
    set i | 0 <= i < |listing| && Position(rows, listing[i]) != i + 1 :: listing[i]
  }

  function Ids(moves: seq<Move>): seq<int> {
    seq(|moves|, i requires 0 <= i < |moves| => moves[i].id)
  }

  function Positions(moves: seq<Move>): seq<int> {
    seq(|moves|, i requires 0 <= i < |moves| => moves[i].position)
  }

  function Range(n: nat): seq<int> {
    seq(n, i => i)
  }

  /** `sorted(positions) == list(range(n))` */
  predicate IsPermutation(positions: seq<int>) {
    multiset(positions) == multiset(Range(|positions|))
  }

  /** The checks of `cost_shortcut_update_positions`, in its order. */
  function Check(rows: Rows, user: int, moves: seq<Move>): Option<Refusal> {
    var listed := Listed(moves);
    if !IsPermutation(Positions(moves)) then Some(BadPositions)
    else if |listed| != |moves| then Some(DuplicateIds)
    else if listed - Own(rows, user) != {} then Some(NotOwned(listed - Own(rows, user)))
    else None
  }

  function Listed(moves: seq<Move>): set<int> {
    SetOf(Ids(moves))
  }

  // ------------------------------------------------------------------
  // Runs
  // ------------------------------------------------------------------

  datatype Action =
    | Add(user: int, id: int, last: Option<int>)
    | Delete(user: int, id: int, listing: seq<int>)
    | Reorder(user: int, moves: seq<Move>)

  /** What the database answers inside the action: a fresh id, the last row, the remaining rows in order. */
  predicate Enabled(rows: Rows, a: Action) {
    match a
    case Add(user, id, last) => id !in rows && IsLast(rows, user, last)
    case Delete(user, id, listing) => InUiOrder(rows - {id}, user, listing)
    case Reorder(_, _) => true
  }

  function Next(rows: Rows, a: Action): Rows {
    match a
    case Add(user, id, last) =>
      rows[id := Shortcut(user, if last.None? then 1 else Position(rows, last.value) + 1)]
    case Delete(user, id, listing) => Placed(rows - {id}, user, Numbered(listing))
    case Reorder(user, moves) =>
      if Check(rows, user, moves) == None then Placed(rows, user, moves) else rows
  }

  predicate Tail(rows: Rows, id: int) {
    id in rows ==> forall other :: other in Own(rows, rows[id].user) ==> Position(rows, other) <= rows[id].position
  }

  /**
   Exactly the calls that keep every user's order contiguous. A delete does
   not check the owner, and only the caller's rows are numbered again; a
   reorder need not name every shortcut.
   */
  predicate Safe(rows: Rows, a: Action) {
    match a
    case Add(_, _, _) => true
    case Delete(user, id, _) =>
      id in rows ==> rows[id].user == user || rows[id].position == 0 || Tail(rows, id)
    case Reorder(user, moves) =>
      Check(rows, user, moves) == None && moves != [] ==>
        forall id :: id in Own(rows, user) - Listed(moves) ==> |moves| <= Position(rows, id) < |Own(rows, user)|
  }

  /** Deleting an own shortcut, or reordering all own shortcuts. */
  predicate Proper(rows: Rows, a: Action) {
    match a
    case Add(_, _, _) => true
    case Delete(user, id, _) => id in rows ==> rows[id].user == user
    case Reorder(user, moves) => Own(rows, user) <= Listed(moves)
  }

  function After(rows: Rows, run: seq<Action>): Rows {
    if run == [] then rows else Next(After(rows, run[..|run| - 1]), run[|run| - 1])
  }

  ghost predicate Runs(rows: Rows, run: seq<Action>) {
    forall i :: 0 <= i < |run| ==> Enabled(After(rows, run[..i]), run[i])
  }

  // ------------------------------------------------------------------
  // Listings
  // ------------------------------------------------------------------

  /** Each of 0 .. n - 1, once. */
  predicate EachOnce(positions: seq<int>) {
    Distinct(positions) && forall i :: 0 <= i < |positions| ==> 0 <= positions[i] < |positions|
  }

  lemma {:induction false} SetSize(ids: seq<int>)
    ensures |SetOf(ids)| <= |ids|
    ensures |SetOf(ids)| == |ids| <==> Distinct(ids)
    decreases |ids|
  {
    if ids != [] {
      var front, last := ids[..|ids| - 1], ids[|ids| - 1];
      SetSize(front);
      assert ids == front + [last];
      assert SetOf(ids) == SetOf(front) + {last};
      if last in front {
        assert SetOf(ids) == SetOf(front);
        var i :| 0 <= i < |front| && front[i] == last;
        assert ids[i] == ids[|front|];
      } else {
        assert Distinct(front) <==> Distinct(ids);
      }
    }
  }

  lemma Member(ids: set<int>, listing: seq<int>, id: int)
    requires Lists(ids, listing)
    ensures id in ids <==> exists i :: 0 <= i < |listing| && listing[i] == id
  {
  }

  /** There is only one way to list the same rows in order. */
  lemma {:induction false} OneOrder(rows: Rows, a: seq<int>, b: seq<int>)
    requires Sorted(rows, a) && Sorted(rows, b)
    requires forall id :: id in a <==> id in b
    ensures a == b
    decreases |a|
  {
    NoMember(a);
    NoMember(b);
    if a != [] {
      assert a[0] in a && b[0] in b;
      FirstIsLeast(rows, a, b[0]);
      FirstIsLeast(rows, b, a[0]);
      forall id ensures id in a[1..] <==> id in b[1..] {
        SortedTail(rows, a, id);
        SortedTail(rows, b, id);
      }
      OneOrder(rows, a[1..], b[1..]);
      assert a == [a[0]] + a[1..] && b == [b[0]] + b[1..];
    }
  }

  lemma NoMember(s: seq<int>)
    ensures (forall id :: id !in s) <==> s == []
  {
    if s != [] {
      var first := s[0];
      assert first in s;
    }
  }

  lemma FirstIsLeast(rows: Rows, s: seq<int>, id: int)
    requires Sorted(rows, s) && id in s
    ensures id == s[0] || Before(rows, s[0], id)
  {
    var k :| 0 <= k < |s| && s[k] == id;
  }

  lemma SortedTail(rows: Rows, s: seq<int>, id: int)
    requires s != [] && Sorted(rows, s)
    ensures id in s[1..] <==> id in s && id != s[0]
  {
    if id in s[1..] {
      var k :| 0 <= k < |s[1..]| && s[1..][k] == id;
      assert Before(rows, s[0], s[k + 1]);
    }
  }

  lemma BlockIsInOrder(rows: Rows, user: int, listing: seq<int>, start: int)
    requires Block(rows, user, listing, start)
    ensures InUiOrder(rows, user, listing)
  {
  }

  // ------------------------------------------------------------------
  // Writing positions
  // ------------------------------------------------------------------

  lemma FrontIds(moves: seq<Move>)
    requires moves != [] && Distinct(Ids(moves))
    ensures var front, last := moves[..|moves| - 1], moves[|moves| - 1];
            && Distinct(Ids(front))
            && (forall id :: id in Ids(moves) <==> id in Ids(front) || id == last.id)
            && (forall i :: 0 <= i < |front| ==> moves[i].id != last.id)
  {
    var front, last := moves[..|moves| - 1], moves[|moves| - 1];
    assert Ids(moves) == Ids(front) + [last.id];
    forall i | 0 <= i < |front| ensures moves[i].id != last.id {
      assert Ids(moves)[i] != Ids(moves)[|front|];
    }
    assert Ids(front) == Ids(moves)[..|front|];
  }

  /** Every listed own row gets its position; no other row and no owner changes. */
  lemma {:induction false} PlacedEffect(rows: Rows, user: int, moves: seq<Move>)
    requires Distinct(Ids(moves))
    ensures var after := Placed(rows, user, moves);
            && after.Keys == rows.Keys
            && (forall id :: id in rows ==> after[id].user == rows[id].user)
            && (forall id :: id in rows && (rows[id].user != user || id !in Ids(moves)) ==> after[id] == rows[id])
            && (forall i :: 0 <= i < |moves| && moves[i].id in Own(rows, user) ==> Position(after, moves[i].id) == moves[i].position)
    decreases |moves|
  {
    if moves != [] {
      var front, last := moves[..|moves| - 1], moves[|moves| - 1];
      FrontIds(moves);
      PlacedEffect(rows, user, front);
    }
  }

  lemma SameOwn(before: Rows, after: Rows, user: int)
    requires after.Keys == before.Keys
    requires forall id :: id in before ==> after[id].user == before[id].user
    ensures Own(after, user) == Own(before, user)
  {
    forall id ensures id in Own(before, user) <==> id in Own(after, user) {
      assert id in before.Keys <==> id in after.Keys;
    }
  }

  lemma PlacedOwn(rows: Rows, user: int, moves: seq<Move>, u: int)
    requires Distinct(Ids(moves))
    ensures Own(Placed(rows, user, moves), u) == Own(rows, u)
  {
    PlacedEffect(rows, user, moves);
    SameOwn(rows, Placed(rows, user, moves), u);
  }

  /**
   `rebuild_ui_positions` numbers the user's rows 1, 2, ..., keeps their order
   and leaves all other rows alone.
   */
  lemma {:induction false} RebuildEffect(rows: Rows, user: int, listing: seq<int>)
    requires InUiOrder(rows, user, listing)
    ensures var after := Placed(rows, user, Numbered(listing));
            && Block(after, user, listing, 1)
            && InUiOrder(after, user, listing)
            && after.Keys == rows.Keys
            && (forall id :: id in rows ==> after[id].user == rows[id].user)
            && (forall id :: id in rows && rows[id].user != user ==> after[id] == rows[id])
            && (forall a, b | a in Own(rows, user) && b in Own(rows, user) ::
                  rows[a].position < rows[b].position || (rows[a].position == rows[b].position && a < b)
                  ==> after[a].position < after[b].position)
  {
    var moves := Numbered(listing);
    assert Ids(moves) == listing;
    PlacedEffect(rows, user, moves);
    PlacedOwn(rows, user, moves, user);
    var after := Placed(rows, user, moves);
    forall i | 0 <= i < |listing| ensures Position(after, listing[i]) == 1 + i {
      Member(Own(rows, user), listing, listing[i]);
      assert moves[i].id == listing[i];
    }
    BlockIsInOrder(after, user, listing, 1);
    forall a, b | a in Own(rows, user) && b in Own(rows, user) && Before(rows, a, b)
      ensures after[a].position < after[b].position
    {
      KeepsOrder(rows, after, user, listing, a, b);
    }
  }

  lemma KeepsOrder(rows: Rows, after: Rows, user: int, listing: seq<int>, a: int, b: int)
    requires InUiOrder(rows, user, listing) && Follow(after, listing, 1) && Before(rows, a, b)
    requires a in Own(rows, user) && b in Own(rows, user) && a in after && b in after
    ensures after[a].position < after[b].position
  {
    Member(Own(rows, user), listing, a);
    Member(Own(rows, user), listing, b);
    var i :| 0 <= i < |listing| && listing[i] == a;
    var k :| 0 <= k < |listing| && listing[k] == b;
    assert k < i ==> Before(rows, b, a);
  }

  /** A second rebuild finds the same order and has nothing to write. */
  lemma {:induction false} RebuildIdle(rows: Rows, user: int, listing: seq<int>, again: seq<int>)
    requires InUiOrder(rows, user, listing)
    requires InUiOrder(Placed(rows, user, Numbered(listing)), user, again)
    ensures var after := Placed(rows, user, Numbered(listing));
            again == listing && Misplaced(after, again) == {}
  {
    RebuildEffect(rows, user, listing);
    var after := Placed(rows, user, Numbered(listing));
    forall id ensures id in listing <==> id in again {
      Member(Own(after, user), listing, id);
      Member(Own(after, user), again, id);
    }
    OneOrder(after, listing, again);
  }

  lemma MisplacedStep(rows: Rows, listing: seq<int>, i: nat)
    requires i < |listing|
    ensures Misplaced(rows, listing[..i + 1]) ==
            Misplaced(rows, listing[..i]) + if Position(rows, listing[i]) != i + 1 then {listing[i]} else {}
  {
    assert forall k :: 0 <= k < i ==> listing[..i + 1][k] == listing[..i][k];
  }

  /** After numbering i rows, the next one is still as it was; if it is in place already, numbering it changes nothing. */
  lemma StillToNumber(rows: Rows, user: int, listing: seq<int>, i: nat)
    requires InUiOrder(rows, user, listing) && i < |listing|
    ensures var now, id := Placed(rows, user, Numbered(listing)[..i]), listing[i];
            && id in now && id in rows && now[id] == rows[id] && rows[id].user == user
            && Placed(rows, user, Numbered(listing)[..i + 1]) ==
               if now[id].position != i + 1 then now[id := Shortcut(user, i + 1)] else now
  {
    var moves, id := Numbered(listing), listing[i];
    var now := Placed(rows, user, moves[..i]);
    Member(Own(rows, user), listing, id);
    assert Ids(moves[..i]) == listing[..i];
    PlacedEffect(rows, user, moves[..i]);
    assert moves[..i + 1][..i] == moves[..i] && moves[..i + 1][i] == Move(id, i + 1);
    if now[id].position == i + 1 {
      assert now[id := Shortcut(user, i + 1)] == now;
    }
  }

  /** Nothing to write means nothing changes, and the rows already are 1, 2, ... */
  lemma {:induction false} NothingMisplaced(rows: Rows, user: int, listing: seq<int>)
    requires InUiOrder(rows, user, listing)
    ensures Misplaced(rows, listing) == {} <==> Block(rows, user, listing, 1)
  {
    forall i | 0 <= i < |listing|
      ensures Position(rows, listing[i]) != i + 1 ==> listing[i] in Misplaced(rows, listing)
    {
    }
  }

  // ------------------------------------------------------------------
  // One step
  // ------------------------------------------------------------------

  /** Rows of this user that keep owner and position keep the block. */
  lemma SameBlock(before: Rows, after: Rows, user: int)
    requires Own(before, user) == Own(after, user)
    requires forall id :: id in Own(before, user) ==> Position(before, id) == Position(after, id)
    ensures Contiguous(before, user) <==> Contiguous(after, user)
  {
    forall listing, start ensures Block(before, user, listing, start) <==> Block(after, user, listing, start) {
      forall i | 0 <= i < |listing| && Lists(Own(before, user), listing)
        ensures Position(before, listing[i]) == Position(after, listing[i])
      {
        Member(Own(before, user), listing, listing[i]);
      }
    }
  }

  lemma EmptyListing(ids: set<int>, listing: seq<int>)
    requires Lists(ids, listing)
    ensures ids == {} <==> listing == []
  {
    if listing != [] {
      var first := listing[0];
      assert first in SetOf(listing);
    }
  }

  lemma AddKeeps(rows: Rows, user: int, id: int, last: Option<int>)
    requires Enabled(rows, Add(user, id, last)) && Contiguous(rows, user)
    ensures Contiguous(Next(rows, Add(user, id, last)), user)
  {
    var listing, start :| Block(rows, user, listing, start) && (start == 0 || start == 1);
    var after := Next(rows, Add(user, id, last));
    assert Own(after, user) == Own(rows, user) + {id};
    Member(Own(rows, user), listing, id);
    var longer := listing + [id];
    assert (set x | x in longer) == Own(after, user);
    forall i | 0 <= i < |listing| ensures Position(after, longer[i]) == start + i {
      Member(Own(rows, user), listing, listing[i]);
    }
    match last
    case None =>
      EmptyListing(Own(rows, user), listing);
      assert Block(after, user, longer, 1);
    case Some(l) =>
      Member(Own(rows, user), listing, l);
      Member(Own(rows, user), listing, listing[|listing| - 1]);
      assert Position(rows, l) == start + |listing| - 1;
      assert Block(after, user, longer, start);
  }

  ghost predicate Taken(rows: Rows, user: int, q: int) {
    exists id :: id in Own(rows, user) && Position(rows, id) == q
  }

  lemma BlockTakes(rows: Rows, user: int, listing: seq<int>, start: int, q: int)
    requires Block(rows, user, listing, start)
    ensures Taken(rows, user, q) <==> start <= q < start + |listing|
  {
    if Taken(rows, user, q) {
      var id :| id in Own(rows, user) && Position(rows, id) == q;
      Member(Own(rows, user), listing, id);
    }
    if start <= q < start + |listing| {
      Member(Own(rows, user), listing, listing[q - start]);
    }
  }

  /** Removing l[j] frees exactly the position s + j. */
  lemma Freed(rows: Rows, v: int, l: seq<int>, s: int, j: nat, l2: seq<int>, t: int, q: int)
    requires Block(rows, v, l, s) && j < |l| && Block(rows - {l[j]}, v, l2, t)
    ensures s <= q < s + |l| && q != s + j <==> t <= q < t + |l2|
  {
    var rest := rows - {l[j]};
    BlockTakes(rows, v, l, s, q);
    BlockTakes(rest, v, l2, t, q);
    if Taken(rows, v, q) && q != s + j {
      var id :| id in Own(rows, v) && Position(rows, id) == q;
      assert id in Own(rest, v) && Position(rest, id) == q;
    }
    if Taken(rest, v, q) {
      var id :| id in Own(rest, v) && Position(rest, id) == q;
      assert id in Own(rows, v);
      Member(Own(rows, v), l, id);
    }
  }

  /** A block that loses a row stays a block only if the row is its last, or its first on position 0. */
  lemma HoleBreaks(rows: Rows, v: int, id: int)
    requires Contiguous(rows, v) && id in Own(rows, v) && Contiguous(rows - {id}, v)
    ensures rows[id].position == 0 || Tail(rows, id)
  {
    var l, s :| Block(rows, v, l, s) && (s == 0 || s == 1);
    var l2, t :| Block(rows - {id}, v, l2, t) && (t == 0 || t == 1);
    Member(Own(rows, v), l, id);
    var j :| 0 <= j < |l| && l[j] == id;
    Freed(rows, v, l, s, j, l2, t, s + j);
    Freed(rows, v, l, s, j, l2, t, s);
    Freed(rows, v, l, s, j, l2, t, t);
    Freed(rows, v, l, s, j, l2, t, s + |l| - 1);
    if j == |l| - 1 {
      forall other | other in Own(rows, v) ensures Position(rows, other) <= Position(rows, id) {
        Member(Own(rows, v), l, other);
      }
    }
  }

  lemma WithoutOne(rows: Rows, v: int, l: seq<int>, s: int, j: nat, a: nat, b: nat)
    requires Block(rows, v, l, s)
    requires (a == 0 && b == j == |l| - 1) || (a == 1 && b == |l| && j == 0 < |l|)
    ensures Block(rows - {l[j]}, v, l[a..b], s + a)
  {
    var rest, part := rows - {l[j]}, l[a..b];
    forall id ensures id in SetOf(part) <==> id in Own(rest, v) {
      Member(Own(rows, v), l, id);
      if id in SetOf(part) {
        var i :| 0 <= i < |part| && part[i] == id;
        assert l[a + i] == id;
      }
      if id in Own(rest, v) {
        var i :| 0 <= i < |l| && l[i] == id;
        assert part[i - a] == id;
      }
    }
    forall i | 0 <= i < |part| ensures Position(rest, part[i]) == s + a + i {
      assert part[i] == l[a + i] != l[j];
    }
  }

  lemma EndsMayGo(rows: Rows, v: int, id: int)
    requires Contiguous(rows, v) && id in Own(rows, v)
    requires rows[id].position == 0 || Tail(rows, id)
    ensures Contiguous(rows - {id}, v)
  {
    var l, s :| Block(rows, v, l, s) && (s == 0 || s == 1);
    Member(Own(rows, v), l, id);
    var j :| 0 <= j < |l| && l[j] == id;
    Member(Own(rows, v), l, l[|l| - 1]);
    if j == |l| - 1 {
      WithoutOne(rows, v, l, s, j, 0, j);
    } else {
      assert j == 0 && s == 0;
      WithoutOne(rows, v, l, s, j, 1, |l|);
    }
  }

  lemma DeleteKeepsIff(rows: Rows, user: int, id: int, listing: seq<int>, v: int)
    requires Enabled(rows, Delete(user, id, listing)) && Contiguous(rows, v)
    ensures Contiguous(Next(rows, Delete(user, id, listing)), v) <==>
            (id in Own(rows, v) && v != user ==> rows[id].position == 0 || Tail(rows, id))
  {
    var rest := rows - {id};
    RebuildEffect(rest, user, listing);
    assert Ids(Numbered(listing)) == listing;
    var after := Placed(rest, user, Numbered(listing));
    if v == user {
      assert Block(after, user, listing, 1);
    } else {
      PlacedOwn(rest, user, Numbered(listing), v);
      SameBlock(rest, after, v);
      if id in Own(rows, v) {
        if Contiguous(rest, v) {
          HoleBreaks(rows, v, id);
        }
        if rows[id].position == 0 || Tail(rows, id) {
          EndsMayGo(rows, v, id);
        }
      } else {
        SameBlock(rows, rest, v);
      }
    }
  }

  // ------------------------------------------------------------------
  // Reordering
  // ------------------------------------------------------------------

  lemma RangeCounts(n: nat, x: int)
    ensures x in multiset(Range(n)) <==> 0 <= x < n
  {
    assert 0 <= x < n ==> Range(n)[x] == x;
  }

  lemma {:induction false} RangeOnce(n: nat, x: int)
    ensures multiset(Range(n))[x] <= 1
    decreases n
  {
    if n > 0 {
      RangeOnce(n - 1, x);
      RangeCounts(n - 1, x);
      assert Range(n) == Range(n - 1) + [n - 1];
    }
  }

  /** An accepted list of positions has each of 0 .. n - 1 once. */
  lemma PermutationMeans(positions: seq<int>)
    requires IsPermutation(positions)
    ensures Distinct(positions)
    ensures forall p :: p in positions <==> 0 <= p < |positions|
  {
    forall i, k | 0 <= i < k < |positions| ensures positions[i] != positions[k] {
      var x := positions[i];
      var a, b := positions[..k], positions[k..];
      assert positions == a + b;
      assert a[i] == x && x in multiset(a);
      if positions[k] == x {
        assert b[0] == x && x in multiset(b);
        assert multiset(positions) == multiset(a) + multiset(b);
        assert multiset(positions)[x] >= 2;
        RangeOnce(|positions|, x);
      }
    }
    forall p ensures p in positions <==> 0 <= p < |positions| {
      RangeCounts(|positions|, p);
      assert p in positions <==> p in multiset(positions);
    }
  }

  lemma {:induction false} CountsOnce(positions: seq<int>, x: int)
    requires Distinct(positions)
    ensures multiset(positions)[x] == if x in positions then 1 else 0
    decreases |positions|
  {
    if positions != [] {
      var front, last := positions[..|positions| - 1], positions[|positions| - 1];
      assert positions == front + [last];
      CountsOnce(front, x);
      assert last !in front;
    }
  }

  lemma RangeLists(n: nat)
    ensures Distinct(Range(n)) && forall x :: x in Range(n) <==> 0 <= x < n
  {
    forall x | 0 <= x < n ensures x in Range(n) {
      assert Range(n)[x] == x;
    }
  }

  /** Distinct positions inside the range leave none of it out. */
  lemma NoneLeftOut(positions: seq<int>)
    requires EachOnce(positions)
    ensures forall x :: x in positions <==> 0 <= x < |positions|
  {
    var n := |positions|;
    RangeLists(n);
    SetSize(positions);
    SetSize(Range(n));
    SameSize(SetOf(positions), SetOf(Range(n)));
    forall x ensures x in positions <==> 0 <= x < n {
      assert x in SetOf(positions) <==> x in SetOf(Range(n));
    }
  }

  /** `sorted(positions) == list(range(n))` accepts exactly the lists with each of 0 .. n - 1 once. */
  lemma PermutationIff(positions: seq<int>)
    ensures IsPermutation(positions) <==> EachOnce(positions)
  {
    if IsPermutation(positions) {
      PermutationMeans(positions);
      forall i | 0 <= i < |positions| ensures 0 <= positions[i] < |positions| {
        assert positions[i] in positions;
      }
    }
    if EachOnce(positions) {
      RangeLists(|positions|);
      NoneLeftOut(positions);
      forall x ensures multiset(positions)[x] == multiset(Range(|positions|))[x] {
        CountsOnce(positions, x);
        CountsOnce(Range(|positions|), x);
      }
    }
  }

  /** Exactly what is refused, and in which order. */
  lemma CheckMeans(rows: Rows, user: int, moves: seq<Move>)
    ensures var check, good := Check(rows, user, moves), EachOnce(Positions(moves));
            var foreign := set i | 0 <= i < |moves| && !(moves[i].id in rows && rows[moves[i].id].user == user) :: moves[i].id;
            && (check == Some(BadPositions) <==> !good)
            && (check == Some(DuplicateIds) <==> good && !Distinct(Ids(moves)))
            && (check.Some? && check.value.NotOwned? <==> good && Distinct(Ids(moves)) && foreign != {})
            && (check.Some? && check.value.NotOwned? ==> check.value.missing == foreign)
            && (check == None <==> good && Distinct(Ids(moves)) && foreign == {})
  {
    PermutationIff(Positions(moves));
    SetSize(Ids(moves));
    var foreign := set i | 0 <= i < |moves| && !(moves[i].id in rows && rows[moves[i].id].user == user) :: moves[i].id;
    forall id ensures id in Listed(moves) - Own(rows, user) <==> id in foreign {
      NamedMove(moves, id);
    }
    assert Listed(moves) - Own(rows, user) == foreign;
  }

  ghost predicate Occupied(rows: Rows, ids: set<int>, p: int) {
    exists id :: id in ids && Position(rows, id) == p
  }

  lemma NamedMove(moves: seq<Move>, id: int)
    ensures id in Listed(moves) <==> exists i :: 0 <= i < |moves| && moves[i].id == id
  {
    if id in Listed(moves) {
      var i :| 0 <= i < |Ids(moves)| && Ids(moves)[i] == id;
      assert moves[i].id == id;
    }
    if i :| 0 <= i < |moves| && moves[i].id == id {
      assert Ids(moves)[i] == id;
    }
  }

  /** Where an accepted reorder puts what it names. */
  lemma AcceptedMoves(rows: Rows, user: int, moves: seq<Move>)
    requires Check(rows, user, moves) == None
    ensures Distinct(Ids(moves)) && Distinct(Positions(moves)) && |Listed(moves)| == |moves| && Listed(moves) <= Own(rows, user)
    ensures forall i :: 0 <= i < |moves| ==>
              && moves[i].id in Own(rows, user) && 0 <= moves[i].position < |moves|
              && Position(Placed(rows, user, moves), moves[i].id) == moves[i].position
    ensures forall p :: 0 <= p < |moves| ==> p in Positions(moves)
  {
    SetSize(Ids(moves));
    PlacedEffect(rows, user, moves);
    PermutationMeans(Positions(moves));
    forall i | 0 <= i < |moves| ensures moves[i].id in Own(rows, user) && 0 <= moves[i].position < |moves| {
      NamedMove(moves, moves[i].id);
      assert moves[i].id !in Listed(moves) - Own(rows, user);
      assert Positions(moves)[i] in Positions(moves);
    }
  }

  /** An accepted reorder puts own shortcuts on the positions 0 .. k - 1, and moves nothing else. */
  lemma ReorderEffect(rows: Rows, user: int, moves: seq<Move>)
    requires Check(rows, user, moves) == None
    ensures var after := Placed(rows, user, moves);
            && Listed(moves) <= Own(rows, user) && |Listed(moves)| == |moves|
            && after.Keys == rows.Keys
            && (forall u :: Own(after, u) == Own(rows, u))
            && (forall p :: 0 <= p < |moves| ==> Occupied(after, Listed(moves), p))
            && (forall id :: id in rows && id !in Listed(moves) ==> after[id] == rows[id])
  {
    var positions, after := Positions(moves), Placed(rows, user, moves);
    AcceptedMoves(rows, user, moves);
    PlacedEffect(rows, user, moves);
    forall u ensures Own(after, u) == Own(rows, u) {
      PlacedOwn(rows, user, moves, u);
    }
    forall p | 0 <= p < |moves| ensures Occupied(after, Listed(moves), p) {
      assert p in positions;
      var i :| 0 <= i < |positions| && positions[i] == p;
      NamedMove(moves, moves[i].id);
    }
  }

  lemma ReorderBreaks(rows: Rows, user: int, moves: seq<Move>)
    requires Check(rows, user, moves) == None && moves != []
    requires Contiguous(Placed(rows, user, moves), user)
    ensures Safe(rows, Reorder(user, moves))
  {
    ReorderEffect(rows, user, moves);
    var after, own := Placed(rows, user, moves), Own(rows, user);
    var l, s :| Block(after, user, l, s) && (s == 0 || s == 1);
    SetSize(l);
    assert Occupied(after, Listed(moves), 0);
    BlockTakes(after, user, l, s, 0);
    assert s == 0;
    forall id | id in own - Listed(moves) ensures |moves| <= Position(rows, id) < |own| {
      BlockTakes(after, user, l, s, Position(after, id));
      assert Taken(after, user, Position(after, id));
      if 0 <= Position(after, id) < |moves| {
        assert Occupied(after, Listed(moves), Position(after, id));
        OnePerPosition(after, user, l, s, Listed(moves), id, Position(after, id));
      }
    }
  }

  lemma OnePerPosition(rows: Rows, user: int, l: seq<int>, s: int, named: set<int>, id: int, q: int)
    requires Block(rows, user, l, s) && named <= Own(rows, user)
    requires id in Own(rows, user) && Position(rows, id) == q && Occupied(rows, named, q)
    ensures id in named
  {
    var taken :| taken in named && Position(rows, taken) == q;
    Member(Own(rows, user), l, taken);
    Member(Own(rows, user), l, id);
  }

  lemma UnnamedKept(rows: Rows, user: int, l: seq<int>, s: int, k: nat, x: int)
    requires Block(rows, user, l, s) && 0 <= k - s <= |l| - s <= |l|
    requires x in Own(rows, user) && k <= Position(rows, x) < |l|
    ensures x in SetOf(l[k - s..|l| - s])
  {
    Member(Own(rows, user), l, x);
    var i :| 0 <= i < |l| && l[i] == x;
    InPart(l, k - s, |l| - s, i);
  }

  lemma InPart(l: seq<int>, a: nat, b: nat, i: nat)
    requires a <= i < b <= |l|
    ensures l[i] in SetOf(l[a..b])
  {
    assert l[a..b][i - a] == l[i];
  }

  lemma PartSize(l: seq<int>, a: nat, b: nat)
    requires Distinct(l) && a <= b <= |l|
    ensures Distinct(l[a..b]) && |SetOf(l[a..b])| == b - a
  {
    SetSize(l[a..b]);
  }

  lemma AllUnnamedKept(rows: Rows, user: int, named: set<int>, l: seq<int>, s: int, k: nat)
    requires Block(rows, user, l, s) && 0 <= k - s <= |l| - s <= |l|
    requires forall id :: id in Own(rows, user) - named ==> k <= Position(rows, id) < |l|
    ensures Own(rows, user) - named <= SetOf(l[k - s..|l| - s])
  {
    forall x | x in Own(rows, user) - named ensures x in SetOf(l[k - s..|l| - s]) {
      UnnamedKept(rows, user, l, s, k, x);
    }
  }

  lemma RestIsKept(rows: Rows, user: int, named: set<int>, l: seq<int>, s: int, k: nat)
    requires Block(rows, user, l, s) && 0 <= k - s <= |l| - s <= |l|
    requires named <= Own(rows, user) && |named| == k && |Own(rows, user)| == |l|
    requires forall id :: id in Own(rows, user) - named ==> k <= Position(rows, id) < |l|
    ensures SetOf(l[k - s..|l| - s]) == Own(rows, user) - named
  {
    PartSize(l, k - s, |l| - s);
    AllUnnamedKept(rows, user, named, l, s, k);
    IsRest(named, Own(rows, user), SetOf(l[k - s..|l| - s]));
  }

  /** The shortcuts that a safe reorder does not name are those on positions k .. n - 1. */
  lemma UnnamedFill(rows: Rows, user: int, moves: seq<Move>, l: seq<int>, s: int)
    requires Check(rows, user, moves) == None && Safe(rows, Reorder(user, moves)) && moves != []
    requires Block(rows, user, l, s) && (s == 0 || s == 1)
    ensures |moves| <= |l| == |Own(rows, user)|
    ensures SetOf(l[|moves| - s..|l| - s]) == Own(rows, user) - Listed(moves)
  {
    var named, own := Listed(moves), Own(rows, user);
    assert named <= own && |named| == |moves| by { ReorderEffect(rows, user, moves); }
    SetSize(l);
    SizeOfRest(named, own);
    RestIsKept(rows, user, named, l, s, |moves|);
  }

  lemma SizeOfRest(small: set<int>, large: set<int>)
    requires small <= large
    ensures |large - small| == |large| - |small|
  {
    assert large == small + (large - small);
  }

  lemma IsRest(small: set<int>, large: set<int>, rest: set<int>)
    requires small <= large && large - small <= rest && |rest| == |large| - |small|
    ensures rest == large - small
  {
    SizeOfRest(small, large);
    SameSize(large - small, rest);
  }

  lemma SameSize(small: set<int>, large: set<int>)
    requires small <= large && |small| == |large|
    ensures small == large
  {
    SizeOfRest(small, large);
    assert large == small + (large - small);
  }

  ghost function Occupant(rows: Rows, ids: set<int>, p: int): (id: int)
    requires Occupied(rows, ids, p)
    ensures id in ids && Position(rows, id) == p
  {
    var id :| id in ids && Position(rows, id) == p;
    id
  }

  lemma NamedThenKept(rows: Rows, user: int, named: set<int>, kept: seq<int>, k: nat)
    requires Distinct(kept) && SetOf(kept) == Own(rows, user) - named && |Own(rows, user)| == k + |kept|
    requires named <= Own(rows, user) && forall p :: 0 <= p < k ==> Occupied(rows, named, p)
    requires Follow(rows, kept, k)
    ensures Contiguous(rows, user)
  {
    var n, own := k + |kept|, Own(rows, user);
    var l := seq(n, p requires 0 <= p < n => if p < k then Occupant(rows, named, p) else kept[p - k]);
    forall p | 0 <= p < n ensures Position(rows, l[p]) == p && l[p] in own {
      if p >= k {
        assert kept[p - k] in SetOf(kept);
      }
    }
    forall i, j | 0 <= i < j < n ensures l[i] != l[j] {
      assert Position(rows, l[i]) == i && Position(rows, l[j]) == j;
    }
    SetSize(l);
    SameSize(SetOf(l), own);
    assert Block(rows, user, l, 0);
  }

  lemma ReorderKeeps(rows: Rows, user: int, moves: seq<Move>)
    requires Check(rows, user, moves) == None && Safe(rows, Reorder(user, moves)) && moves != []
    requires Contiguous(rows, user)
    ensures Contiguous(Placed(rows, user, moves), user)
  {
    var l, s :| Block(rows, user, l, s) && (s == 0 || s == 1);
    UnnamedFill(rows, user, moves, l, s);
    KeptPositions(rows, user, moves, l, s);
    PartSize(l, |moves| - s, |l| - s);
    PlacedBlock(rows, user, moves, l[|moves| - s..|l| - s]);
  }

  lemma PlacedBlock(rows: Rows, user: int, moves: seq<Move>, kept: seq<int>)
    requires Check(rows, user, moves) == None && Distinct(kept) && Follow(Placed(rows, user, moves), kept, |moves|)
    requires SetOf(kept) == Own(rows, user) - Listed(moves) && |Own(rows, user)| == |moves| + |kept|
    ensures Contiguous(Placed(rows, user, moves), user)
  {
    ReorderEffect(rows, user, moves);
    NamedThenKept(Placed(rows, user, moves), user, Listed(moves), kept, |moves|);
  }

  lemma KeptPositions(rows: Rows, user: int, moves: seq<Move>, l: seq<int>, s: int)
    requires Check(rows, user, moves) == None && Block(rows, user, l, s) && 0 <= |moves| - s <= |l| - s <= |l|
    requires SetOf(l[|moves| - s..|l| - s]) == Own(rows, user) - Listed(moves)
    ensures var kept := l[|moves| - s..|l| - s];
            Follow(Placed(rows, user, moves), kept, |moves|)
  {
    ReorderEffect(rows, user, moves);
    KeptStay(rows, Placed(rows, user, moves), user, Listed(moves), l, s, |moves|);
  }

  lemma KeptStay(rows: Rows, after: Rows, user: int, named: set<int>, l: seq<int>, s: int, k: nat)
    requires Block(rows, user, l, s) && 0 <= k - s <= |l| - s <= |l|
    requires SetOf(l[k - s..|l| - s]) == Own(rows, user) - named
    requires after.Keys == rows.Keys && forall id :: id in rows && id !in named ==> after[id] == rows[id]
    ensures forall i :: k - s <= i < |l| - s ==> Position(after, l[i]) == s + i
  {
    forall i | k - s <= i < |l| - s ensures Position(after, l[i]) == s + i {
      InPart(l, k - s, |l| - s, i);
      assert l[i] in Own(rows, user) && l[i] in after.Keys;
    }
  }

  // ------------------------------------------------------------------
  // Main results
  // ------------------------------------------------------------------

  /** While every user's order is contiguous, a call keeps it so exactly when it is safe. */
  lemma StepContiguousIff(rows: Rows, a: Action)
    requires Enabled(rows, a) && forall v :: Contiguous(rows, v)
    ensures Safe(rows, a) <==> forall v :: Contiguous(Next(rows, a), v)
  {
    match a
    case Add(user, id, last) =>
      forall v ensures Contiguous(Next(rows, a), v) {
        if v == user {
          AddKeeps(rows, user, id, last);
        } else {
          SameBlock(rows, Next(rows, a), v);
        }
      }
    case Delete(user, id, listing) =>
      forall v ensures Contiguous(Next(rows, a), v) <==>
                       (id in Own(rows, v) && v != user ==> rows[id].position == 0 || Tail(rows, id))
      {
        DeleteKeepsIff(rows, user, id, listing, v);
      }
      assert id in rows ==> id in Own(rows, rows[id].user);
    case Reorder(user, moves) =>
      if Check(rows, user, moves) == None && moves != [] {
        ReorderEffect(rows, user, moves);
        forall v | v != user ensures Contiguous(Next(rows, a), v) {
          SameBlock(rows, Next(rows, a), v);
        }
        if Safe(rows, a) {
          ReorderKeeps(rows, user, moves);
        }
        if Contiguous(Next(rows, a), user) {
          ReorderBreaks(rows, user, moves);
        }
      }
  }

  lemma ProperIsSafe(rows: Rows, a: Action)
    requires Proper(rows, a)
    ensures Safe(rows, a)
  {
  }

  /** Over every run of adds, own deletes and full reorders, every user's positions are a block from 0 or 1. */
  lemma {:induction false} RunContiguous(rows: Rows, run: seq<Action>, user: int)
    requires Runs(rows, run) && forall v :: Contiguous(rows, v)
    requires forall i :: 0 <= i < |run| ==> Proper(After(rows, run[..i]), run[i])
    ensures Contiguous(After(rows, run), user)
  {
    forall i | 0 <= i < |run| ensures Safe(After(rows, run[..i]), run[i]) {
      ProperIsSafe(After(rows, run[..i]), run[i]);
    }
    RunKeeps(rows, run);
  }

  /** The same for every run of safe calls. */
  lemma {:induction false} RunKeeps(rows: Rows, run: seq<Action>)
    requires Runs(rows, run) && forall v :: Contiguous(rows, v)
    requires forall i :: 0 <= i < |run| ==> Safe(After(rows, run[..i]), run[i])
    ensures forall v :: Contiguous(After(rows, run), v)
    decreases |run|
  {
    if run != [] {
      var front := run[..|run| - 1];
      forall i | 0 <= i < |front|
        ensures Enabled(After(rows, front[..i]), front[i]) && Safe(After(rows, front[..i]), front[i])
      {
        assert front[..i] == run[..i];
      }
      RunKeeps(rows, front);
      StepContiguousIff(After(rows, front), run[|run| - 1]);
    }
  }

  /** The whole effect of a reorder, without naming its checks. */
  lemma Accepted(rows: Rows, user: int, moves: seq<Move>)
    ensures Check(rows, user, moves) == None <==>
              && EachOnce(Positions(moves)) && Distinct(Ids(moves))
              && forall i :: 0 <= i < |moves| ==> moves[i].id in rows && rows[moves[i].id].user == user
    ensures Check(rows, user, moves) == None ==>
              var after := Placed(rows, user, moves);
              && after.Keys == rows.Keys
              && (forall i :: 0 <= i < |moves| ==> after[moves[i].id] == Shortcut(user, moves[i].position))
              && (forall id :: id in rows && id !in Ids(moves) ==> after[id] == rows[id])
  {
    CheckMeans(rows, user, moves);
    var foreign := set i | 0 <= i < |moves| && !(moves[i].id in rows && rows[moves[i].id].user == user) :: moves[i].id;
    if foreign == {} {
      forall i | 0 <= i < |moves| ensures moves[i].id in rows && rows[moves[i].id].user == user {
        assert moves[i].id !in foreign;
      }
    }
    if Check(rows, user, moves) == None {
      AcceptedMoves(rows, user, moves);
      PlacedEffect(rows, user, moves);
    }
  }

  const TwoUsers: Rows := map[1 := Shortcut(7, 1), 2 := Shortcut(7, 2), 3 := Shortcut(8, 1)]

  lemma TwoUsersInOrder()
    ensures forall v :: Contiguous(TwoUsers, v)
  {
    forall v ensures Contiguous(TwoUsers, v) {
      var listing := if v == 7 then [1, 2] else if v == 8 then [3] else [];
      assert SetOf(listing) == Own(TwoUsers, v);
      assert Block(TwoUsers, v, listing, 1);
    }
  }

  /** User 8 deletes a shortcut of user 7: user 7 is left with position 2 alone. */
  lemma ForeignDeleteBreaks()
    ensures var a := Delete(8, 1, [3]);
            Enabled(TwoUsers, a) && exists v :: Contiguous(TwoUsers, v) && !Contiguous(Next(TwoUsers, a), v)
  {
    var a := Delete(8, 1, [3]);
    TwoUsersInOrder();
    assert SetOf([3]) == Own(TwoUsers - {1}, 8);
    assert 2 in Own(TwoUsers, 7);
    StepContiguousIff(TwoUsers, a);
  }

  /** User 7 puts one of two shortcuts on position 0: the other one stays on 2. */
  lemma PartialReorderBreaks()
    ensures var a := Reorder(7, [Move(1, 0)]);
            Check(TwoUsers, 7, [Move(1, 0)]) == None && exists v :: Contiguous(TwoUsers, v) && !Contiguous(Next(TwoUsers, a), v)
  {
    var moves := [Move(1, 0)];
    TwoUsersInOrder();
    assert Ids(moves) == [1] && Positions(moves) == [0] == Range(1);
    assert SetOf([1]) == {1};
    assert Own(TwoUsers, 7) == {1, 2};
    StepContiguousIff(TwoUsers, Reorder(7, moves));
  }

  // ------------------------------------------------------------------
  // The table
  // ------------------------------------------------------------------

  class ShortcutTable {
    var rows: Rows

    constructor ()
      ensures rows == map[]
    {
      rows := map[];
    }

    /** `add_cost_shortcut`; `last` is the answer of `last_cost_shortcut`. */
    method AddShortcut(user: int, id: int, last: Option<int>)
      requires Enabled(rows, Add(user, id, last))
      modifies this
      ensures rows == Next(old(rows), Add(user, id, last))
      ensures rows.Keys == old(rows).Keys + {id} && rows[id].user == user
      ensures Own(old(rows), user) == {} ==> rows[id].position == 1
      ensures forall other :: other in Own(old(rows), user) ==> rows[id].position > old(rows)[other].position
      ensures Own(old(rows), user) != {} ==>
                exists other :: other in Own(old(rows), user) && rows[id].position == old(rows)[other].position + 1
      ensures forall other :: other in old(rows) ==> rows[other] == old(rows)[other]
    {
      var position := 1;
      if last.Some? {
        position := rows[last.value].position + 1;
      }
      rows := rows[id := Shortcut(user, position)];
    }

    /** `listing` is what the SELECT returns. */
    method Rebuild(user: int, listing: seq<int>) returns (ghost written: set<int>)
      requires InUiOrder(rows, user, listing)
      modifies this
      ensures rows == Placed(old(rows), user, Numbered(listing))
      ensures written == Misplaced(old(rows), listing)
    {
      var i := 0;
      written := {};
      while i < |listing|
        invariant 0 <= i <= |listing|
        invariant rows == Placed(old(rows), user, Numbered(listing)[..i])
        invariant written == Misplaced(old(rows), listing[..i])
      {
        var id := listing[i];
        StillToNumber(old(rows), user, listing, i);
        MisplacedStep(old(rows), listing, i);
        if rows[id].position != i + 1 {
          rows := rows[id := Shortcut(user, i + 1)];
          written := written + {id};
        }
        i := i + 1;
      }
      assert Numbered(listing)[..i] == Numbered(listing) && listing[..i] == listing;
    }

    method DeleteShortcut(user: int, id: int, listing: seq<int>)
      requires Enabled(rows, Delete(user, id, listing))
      modifies this
      ensures rows == Next(old(rows), Delete(user, id, listing))
      ensures rows.Keys == old(rows).Keys - {id}
      ensures forall other :: other in rows ==> rows[other].user == old(rows)[other].user
      ensures forall other :: other in rows && rows[other].user != user ==> rows[other] == old(rows)[other]
    {
      RebuildEffect(rows - {id}, user, listing);
      rows := rows - {id};
      var _ := Rebuild(user, listing);
    }

    method UpdatePositions(user: int, moves: seq<Move>) returns (result: Result<(), Refusal>)
      modifies this
      ensures rows == Next(old(rows), Reorder(user, moves))
      ensures result == match Check(old(rows), user, moves) case None => Success(()) case Some(why) => Failure(why)
      ensures result.Success? <==>
                && EachOnce(Positions(moves)) && Distinct(Ids(moves))
                && forall i :: 0 <= i < |moves| ==> moves[i].id in old(rows) && old(rows)[moves[i].id].user == user
      ensures result.Failure? ==> rows == old(rows)
      ensures result.Success? ==>
                && rows.Keys == old(rows).Keys
                && (forall i :: 0 <= i < |moves| ==> rows[moves[i].id] == Shortcut(user, moves[i].position))
                && (forall id :: id in old(rows) && id !in Ids(moves) ==> rows[id] == old(rows)[id])
    {
      Accepted(rows, user, moves);
      var listed := Listed(moves);
      if !IsPermutation(Positions(moves)) {
        return Failure(BadPositions);
      }
      if |listed| != |moves| {
        return Failure(DuplicateIds);
      }
      var missing := listed - Own(rows, user);
      if missing != {} {
        return Failure(NotOwned(missing));
      }
      var i := 0;
      while i < |moves|
        invariant 0 <= i <= |moves|
        invariant rows == Placed(old(rows), user, moves[..i])
      {
        assert moves[..i + 1][..i] == moves[..i];
        rows := Place(rows, user, moves[i]);
        i := i + 1;
      }
      assert moves[..i] == moves;
      return Success(());
    }
  }
}
