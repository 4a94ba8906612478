// A chat's history, page by page from the newest message back.
module Paging {
  datatype Row = Row(id: string, time: int)

  // A chat as the table holds it.
  type Table = set<Row>

  // Positive times, no two messages at the same time.
  ghost predicate Datable(t: Table) {
    (forall r | r in t :: r.time > 0) && (forall a, b | a in t && b in t && a.time == b.time :: a == b)
  }

  // WHERE createdTime < before; 0 asks for the newest.
  function Older(t: Table, before: int): Table {
    if before == 0 then t else set r | r in t && r.time < before
  }

  lemma {:induction false} NewestExists(t: Table)
    requires t != {}
    ensures exists r :: r in t && forall x | x in t :: x.time <= r.time
  {
    var r :| r in t;
    if t != {r} {
      NewestExists(t - {r});
      var s :| s in t - {r} && forall x | x in t - {r} :: x.time <= s.time;
      assert forall x | x in t :: x.time <= (if r.time > s.time then r else s).time by {
        forall x | x in t ensures x.time <= (if r.time > s.time then r else s).time {
          assert x == r || x in t - {r};
        }
      }
    } else {
      assert forall x | x in t :: x == r;
    }
  }

  ghost function Newest(t: Table): (r: Row)
    requires t != {}
    ensures r in t && forall x | x in t :: x.time <= r.time
  {
    NewestExists(t);
    var r :| r in t && forall x | x in t :: x.time <= r.time;
    r
  }

  // ORDER BY createdTime DESC LIMIT n
  ghost function Descending(t: Table, n: nat): (rows: seq<Row>)
    ensures |rows| == if |t| < n then |t| else n
  {
    if n == 0 || t == {} then [] else [Newest(t)] + Descending(t - {Newest(t)}, n - 1)
  }

  predicate Ascending(rows: seq<Row>) {
    forall i, j | 0 <= i < j < |rows| :: rows[i].time < rows[j].time
  }

  function Reverse(rows: seq<Row>): (r: seq<Row>)
    ensures |r| == |rows| && forall i | 0 <= i < |rows| :: r[i] == rows[|rows| - 1 - i]
  {
    seq(|rows|, i requires 0 <= i < |rows| => rows[|rows| - 1 - i])
  }

  // ---- One page ----

  // The newest of the rows asked for, oldest first, and whether any remain.
  ghost predicate IsPage(asked: Table, limit: nat, page: seq<Row>, more: bool) {
    && Ascending(page)
    && (forall r | r in page :: r in asked)
    && (forall r, p | r in asked && r !in page && p in page :: r.time < p.time)
    && |page| <= limit
    && (more <==> exists r :: r in asked && r !in page)
    && (more ==> |page| == limit)
  }

  method ReverseInPlace(rows: array<Row>, count: nat)
    requires count <= rows.Length
    modifies rows
    ensures rows[..count] == Reverse(old(rows[..count]))
  {
    var i, j := 0, count - 1;
    while i < j
      invariant 0 <= i && j == count - 1 - i && i <= j + 1
      invariant forall k | 0 <= k < i || j < k < count :: rows[k] == old(rows[count - 1 - k])
      invariant forall k | i <= k <= j :: rows[k] == old(rows[k])
    {
      rows[i], rows[j] := rows[j], rows[i];
      i, j := i + 1, j - 1;
    }
  }

  // enil_db_message_rows_get_page, given the rows the query yields: one more
  // than the page is fetched, dropped again, and the rest reversed in place.
  method GetPage(ghost asked: Table, fetched: seq<Row>, limit: nat) returns (rows: array<Row>, count: nat, more: bool)
    requires limit > 0 && fetched == Descending(asked, limit + 1)
    ensures fresh(rows) && count <= rows.Length
    ensures rows[..count] == Page(asked, limit) && more == More(asked, limit)
  {
    hide Descending, Reverse;
    rows := new Row[limit + 1](_ => Row("", 0));
    count := 0;
    while count <= limit && count < |fetched|
      invariant 0 <= count <= |fetched| <= limit + 1 == rows.Length
      invariant rows[..count] == fetched[..count]
    {
      rows[count] := fetched[count];
      count := count + 1;
    }
    more := count > limit;
    assert count == |fetched| && fetched[..count] == fetched;
    if more {
      count := limit;
      assert rows[..count] == fetched[..limit];
    }
    ReverseInPlace(rows, count);
  }

  ghost function Page(asked: Table, limit: nat): seq<Row> {
    var rows := Descending(asked, limit + 1);
    Reverse(if |rows| > limit then rows[..limit] else rows)
  }

  ghost predicate More(asked: Table, limit: nat) {
    |Descending(asked, limit + 1)| > limit
  }

  // Rows of the table, newest first, with none of the others newer than any of them.
  ghost predicate NewestFirst(t: Table, rows: seq<Row>) {
    && (forall i, j | 0 <= i < j < |rows| :: rows[i].time > rows[j].time)
    && (forall r | r in rows :: r in t)
    && (forall r, p | r in t && r !in rows && p in rows :: r.time < p.time)
  }

  lemma NewestStep(t: Table, top: Row, rest: seq<Row>)
    requires top in t && (forall x | x in t && x != top :: x.time < top.time) && NewestFirst(t - {top}, rest)
    ensures NewestFirst(t, [top] + rest)
  {
    var rows := [top] + rest;
    forall i, j | 0 <= i < j < |rows| ensures rows[i].time > rows[j].time {
      assert rows[j] == rest[j - 1] && rest[j - 1] in rest;
    }
    forall r, p | r in t && r !in rows && p in rows ensures r.time < p.time {
      assert top in rows && (p == top || p in rest) && r != top && r !in rest;
    }
  }

  lemma {:induction false} DescendingIsNewest(t: Table, n: nat)
    requires Datable(t)
    ensures NewestFirst(t, Descending(t, n))
    decreases n
  {
    hide NewestFirst, Datable;
    if n > 0 && t != {} {
      NewestIsStrict(t, Newest(t));
      DescendingIsNewest(t - {Newest(t)}, n - 1);
      NewestStep(t, Newest(t), Descending(t - {Newest(t)}, n - 1));
    } else {
      NothingFirst(t);
    }
  }

  lemma NothingFirst(t: Table)
    ensures NewestFirst(t, [])
  {
  }

  lemma NewestIsStrict(t: Table, top: Row)
    requires Datable(t) && top in t && forall x | x in t :: x.time <= top.time
    ensures Datable(t - {top}) && forall x | x in t && x != top :: x.time < top.time
  {
  }

  lemma {:induction false} DescendingPrefix(t: Table, n: nat)
    ensures var rows := Descending(t, n + 1); Descending(t, n) == if |rows| > n then rows[..n] else rows
  {
    if n > 0 && t != {} {
      DescendingPrefix(t - {Newest(t)}, n - 1);
    }
  }

  lemma {:induction false} DescendingAll(t: Table, n: nat)
    requires n >= |t|
    ensures forall r | r in t :: r in Descending(t, n)
  {
    if t != {} {
      DescendingAll(t - {Newest(t)}, n - 1);
    }
  }

  lemma {:induction false} SubsetSmaller(rows: seq<Row>, t: Table)
    requires forall r | r in t :: r in rows
    ensures |t| <= |rows|
  {
    if rows == [] {
      assert t == {};
    } else {
      SubsetSmaller(rows[1..], t - {rows[0]});
      assert t <= (t - {rows[0]}) + {rows[0]};
      assert |t| <= |t - {rows[0]}| + 1;
    }
  }

  // The page is exact: the newest rows asked for, ascending, and has_more holds
  // if and only if some row is left.
  lemma PageIsExact(asked: Table, limit: nat)
    requires Datable(asked)
    ensures IsPage(asked, limit, Page(asked, limit), More(asked, limit))
    ensures !More(asked, limit) ==> forall r | r in asked :: r in Page(asked, limit)
  {
    DescendingPrefix(asked, limit);
    DescendingIsNewest(asked, limit);
    var rows := Descending(asked, limit);
    var page := Page(asked, limit);
    assert page == Reverse(rows);
    ReverseSame(rows);
    ReverseAscends(asked, rows);
    if More(asked, limit) {
      SomeLeft(asked, page);
    } else {
      DescendingAll(asked, limit);
    }
    hide Descending, Newest, NewestFirst, Datable, Reverse, Ascending;
  }

  lemma SomeLeft(asked: Table, page: seq<Row>)
    requires |page| < |asked|
    ensures exists r :: r in asked && r !in page
  {
    if forall r | r in asked :: r in page {
      SubsetSmaller(page, asked);
    }
  }

  lemma ReverseAscends(t: Table, rows: seq<Row>)
    requires NewestFirst(t, rows)
    ensures Ascending(Reverse(rows))
    ensures forall r | r in rows :: r in t
    ensures forall r, p | r in t && r !in rows && p in rows :: r.time < p.time
  {
  }

  lemma ReverseSame(rows: seq<Row>)
    ensures forall r :: r in Reverse(rows) <==> r in rows
  {
    forall r ensures r in Reverse(rows) <==> r in rows {
      if i :| 0 <= i < |rows| && rows[i] == r {
        assert Reverse(rows)[|rows| - 1 - i] == r;
      }
    }
  }

  // ---- The walk back through the history ----

  const DEFAULT_SIZE := 40

  function PageSize(size: int): nat {
    if size <= 0 then DEFAULT_SIZE else size
  }

  // The newest page, then the page before each page's oldest message, for as long
  // as there is more.
  ghost function Walk(t: Table, before: int, size: int): (pages: seq<seq<Row>>)
    requires Datable(t) && before >= 0
    decreases |Older(t, before)|
  {
    var asked, limit := Older(t, before), PageSize(size);
    PageIsExact(asked, limit);
    var page := Page(asked, limit);
    if More(asked, limit) then
      OlderShrinks(t, before, page);
      [page] + Walk(t, page[0].time, size)
    else [page]
  }

  lemma OlderShrinks(t: Table, before: int, page: seq<Row>)
    requires Datable(t) && before >= 0 && page != [] && page[0] in Older(t, before)
    ensures page[0].time > 0 && |Older(t, page[0].time)| < |Older(t, before)|
  {
    var next, now := Older(t, page[0].time), Older(t, before);
    assert next <= now - {page[0]};
    Smaller(next, now - {page[0]});
  }

  lemma Smaller(a: Table, b: Table)
    requires a <= b
    ensures |a| <= |b|
  {
    assert b == a + (b - a) && a !! (b - a);
  }

  // The history as it stands on screen: every page above the one before it.
  function Shown(pages: seq<seq<Row>>): seq<Row> {
    if pages == [] then [] else Shown(pages[1..]) + pages[0]
  }

  // These messages and no others, each once, in ascending order.
  ghost predicate Shows(shown: seq<Row>, t: Table) {
    Ascending(shown) && forall r :: r in shown <==> r in t
  }

  // Following the cursor to its end shows every message asked for exactly once,
  // in ascending order.
  lemma {:induction false} WalkShowsEachMessageOnce(t: Table, before: int, size: int)
    requires Datable(t) && before >= 0
    ensures Shows(Shown(Walk(t, before, size)), Older(t, before))
    decreases |Older(t, before)|
  {
    hide Page, More, Older, Shows, Datable, Walk, Shown;
    var page := Page(Older(t, before), PageSize(size));
    if More(Older(t, before), PageSize(size)) {
      WalkUnfolds(t, before, size);
      OlderShrinks(t, before, page);
      WalkShowsEachMessageOnce(t, page[0].time, size);
      MorePages(t, before, size, page, Walk(t, page[0].time, size));
    } else {
      WalkUnfolds(t, before, size);
      OlderDatable(t, before);
      LastPage(Older(t, before), PageSize(size));
      ShownOne(page);
    }
  }

  lemma MorePages(t: Table, before: int, size: int, page: seq<Row>, later: seq<seq<Row>>)
    requires Datable(t) && before >= 0 && page == Page(Older(t, before), PageSize(size)) && page != [] && page[0] in Older(t, before)
    requires Shows(Shown(later), Older(t, page[0].time))
    ensures Shows(Shown([page] + later), Older(t, before))
  {
    PageIsExact(Older(t, before), PageSize(size));
    ShownMore(page, later);
    PageOnTop(t, before, page, Shown(later));
    hide Page, More, Older, Shows, Datable, Ascending, Shown;
  }

  lemma WalkUnfolds(t: Table, before: int, size: int)
    requires Datable(t) && before >= 0
    ensures var asked, limit := Older(t, before), PageSize(size);
      var page := Page(asked, limit);
      if More(asked, limit) then
        page != [] && page[0] in asked && page[0].time >= 0 && Walk(t, before, size) == [page] + Walk(t, page[0].time, size)
      else Walk(t, before, size) == [page]
  {
    PageIsExact(Older(t, before), PageSize(size));
    hide Page, More;
  }

  lemma OlderDatable(t: Table, before: int)
    requires Datable(t)
    ensures Datable(Older(t, before))
  {
  }

  lemma ShownOne(page: seq<Row>)
    ensures Shown([page]) == page
  {
    ShownMore(page, []);
    assert Shown([]) == [];
    assert [page] + [] == [page] && [] + page == page;
  }

  lemma LastPage(asked: Table, limit: nat)
    requires Datable(asked) && !More(asked, limit)
    ensures Shows(Page(asked, limit), asked)
  {
    PageIsExact(asked, limit);
    hide Page, More, Datable;
  }

  lemma PageOnTop(t: Table, before: int, page: seq<Row>, rest: seq<Row>)
    requires Datable(t) && before >= 0 && page != [] && Ascending(page)
    requires forall r | r in page :: r in Older(t, before)
    requires forall r, p | r in Older(t, before) && r !in page && p in page :: r.time < p.time
    requires Shows(rest, Older(t, page[0].time))
    ensures Shows(rest + page, Older(t, before))
  {
    PageSplits(Older(t, before), t, before, page);
    JoinAscending(rest, page);
    assert forall r :: r in rest + page <==> r in rest || r in page;
  }

  lemma ShownMore(page: seq<Row>, pages: seq<seq<Row>>)
    ensures Shown([page] + pages) == Shown(pages) + page
  {
    assert ([page] + pages)[1..] == pages;
  }

  lemma PageSplits(asked: Table, t: Table, before: int, page: seq<Row>)
    requires Datable(t) && before >= 0 && asked == Older(t, before) && page != [] && Ascending(page)
    requires (forall r | r in page :: r in asked) && (forall r, p | r in asked && r !in page && p in page :: r.time < p.time)
    ensures forall r :: r in asked <==> r in page || r in Older(t, page[0].time)
    ensures forall r | r in Older(t, page[0].time) :: r.time < page[0].time
    ensures page[0].time > 0
  {
    forall r ensures r in asked <==> r in page || r in Older(t, page[0].time) {
      assert page[0] in page;
      if r in page && r in asked {
      } else if r in asked {
        assert r.time < page[0].time;
      }
    }
  }

  lemma JoinAscending(a: seq<Row>, b: seq<Row>)
    requires Ascending(a) && Ascending(b) && b != []
    requires forall r | r in a :: r.time < b[0].time
    ensures Ascending(a + b)
  {
    var s := a + b;
    forall i, j | 0 <= i < j < |s| ensures s[i].time < s[j].time {
      if i < |a| && j >= |a| {
        assert a[i] in a && (j == |a| || b[0].time < b[j - |a|].time);
      }
    }
  }
}
