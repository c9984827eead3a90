/** The two cursor pagers of Common/src/mysql_dao.cc: LoadChatMsg by message id, GetUserThreads by
    thread id. A table or query result is a sequence of rows in ascending id order. */
module Paging {

  /** A row: its id, the group it belongs to (a message's thread), and the rest. */
  datatype Row = Row(id: nat, group: nat, data: string)

  predicate Ascending(rows: seq<Row>) {
    forall i, j :: 0 <= i < j < |rows| ==> rows[i].id <= rows[j].id
  }

  /** Ascending, and no id twice: a primary key. */
  predicate Increasing(rows: seq<Row>) {
    forall i, j :: 0 <= i < j < |rows| ==> rows[i].id < rows[j].id
  }

  function Where(rows: seq<Row>, p: Row -> bool): seq<Row> {
    if rows == [] then []
    else if p(rows[0]) then [rows[0]] + Where(rows[1..], p)
    else Where(rows[1..], p)
  }

  function IsOf(g: nat): Row -> bool {
    (r: Row) => r.group == g
  }

  function IsAbove(cursor: int): Row -> bool {
    (r: Row) => r.id > cursor
  }

  function InGroup(rows: seq<Row>, g: nat): seq<Row> {
    Where(rows, IsOf(g))
  }

  function Above(rows: seq<Row>, cursor: int): seq<Row> {
    Where(rows, IsAbove(cursor))
  }

  function Limit(rows: seq<Row>, n: nat): seq<Row> {
    if |rows| <= n then rows else rows[..n]
  }

  // ----- Facts about selections -----

  lemma TailOfSum(s: seq<Row>, t: seq<Row>)
    requires s != []
    ensures (s + t)[0] == s[0] && (s + t)[1..] == s[1..] + t
  {
  }

  lemma RegroupRows(s: seq<Row>, t: seq<Row>, u: seq<Row>)
    ensures s + (t + u) == s + t + u
  {
  }

  lemma {:induction false} WhereConcat(a: seq<Row>, b: seq<Row>, p: Row -> bool)
    ensures Where(a + b, p) == Where(a, p) + Where(b, p)
  {
    if a == [] {
      assert a + b == b;
    } else {
      TailOfSum(a, b);
      WhereConcat(a[1..], b, p);
      RegroupRows([a[0]], Where(a[1..], p), Where(b, p));
    }
  }

  lemma {:induction false} WhereMembers(rows: seq<Row>, p: Row -> bool)
    ensures forall r :: r in Where(rows, p) <==> r in rows && p(r)
  {
    if rows != [] {
      WhereMembers(rows[1..], p);
    }
  }

  lemma {:induction false} WhereAll(rows: seq<Row>, p: Row -> bool)
    requires forall i :: 0 <= i < |rows| ==> p(rows[i])
    ensures Where(rows, p) == rows
  {
    if rows != [] {
      WhereAll(rows[1..], p);
    }
  }

  lemma {:induction false} WhereNone(rows: seq<Row>, p: Row -> bool)
    requires forall i :: 0 <= i < |rows| ==> !p(rows[i])
    ensures Where(rows, p) == []
  {
    if rows != [] {
      WhereNone(rows[1..], p);
    }
  }

  /** Selecting twice is selecting once when the second condition is the stronger. */
  lemma {:induction false} WhereTwice(rows: seq<Row>, p: Row -> bool, q: Row -> bool)
    requires forall r :: q(r) ==> p(r)
    ensures Where(Where(rows, p), q) == Where(rows, q)
  {
    if rows != [] {
      WhereTwice(rows[1..], p, q);
    }
  }

  lemma {:induction false} WhereKeepsOrder(rows: seq<Row>, p: Row -> bool)
    ensures Ascending(rows) ==> Ascending(Where(rows, p))
    ensures Increasing(rows) ==> Increasing(Where(rows, p))
  {
    if rows != [] {
      WhereKeepsOrder(rows[1..], p);
      WhereMembers(rows[1..], p);
      var tail := Where(rows[1..], p);
      forall i | 0 <= i < |tail|
        ensures Ascending(rows) ==> rows[0].id <= tail[i].id
        ensures Increasing(rows) ==> rows[0].id < tail[i].id
      {
        assert tail[i] in rows[1..];
        var j :| 0 <= j < |rows[1..]| && rows[1..][j] == tail[i];
        assert rows[j + 1] == tail[i];
      }
    }
  }

  /** Where nothing before k is above the cursor and everything from k on is. */
  lemma AboveIsSuffix(rows: seq<Row>, cursor: int, k: nat)
    requires k <= |rows|
    requires forall i :: 0 <= i < k ==> rows[i].id <= cursor
    requires forall i :: k <= i < |rows| ==> rows[i].id > cursor
    ensures Above(rows, cursor) == rows[k..]
  {
    var p := IsAbove(cursor);
    assert rows == rows[..k] + rows[k..];
    WhereConcat(rows[..k], rows[k..], p);
    WhereNone(rows[..k], p);
    WhereAll(rows[k..], p);
  }

  /** Asking again from the id of the n-th row found finds strictly less, and what follows that row
      unless the next row has the same id. */
  lemma CursorCuts(rows: seq<Row>, cursor: int, n: nat)
    requires Ascending(rows) && n < |Above(rows, cursor)|
    ensures var m := Above(rows, cursor);
            && m[n].id > cursor && |Above(rows, m[n].id)| < |m|
            && (n + 1 == |m| || m[n].id != m[n + 1].id ==> Above(rows, m[n].id) == m[n + 1..])
  {
    var m := Above(rows, cursor);
    WhereKeepsOrder(rows, IsAbove(cursor));
    WhereMembers(rows, IsAbove(cursor));
    assert m[n] in m;
    WhereTwice(rows, IsAbove(cursor), IsAbove(m[n].id));
    assert Above(rows, m[n].id) == Above(m, m[n].id);
    FewerAbove(m, m[n].id, n);
    if n + 1 == |m| || m[n].id != m[n + 1].id {
      AboveIsSuffix(m, m[n].id, n + 1);
    }
  }

  lemma {:induction false} FewerAbove(rows: seq<Row>, cursor: int, n: nat)
    requires n < |rows| && rows[n].id <= cursor
    ensures |Above(rows, cursor)| < |rows|
    decreases n
  {
    if n > 0 {
      FewerAbove(rows[1..], cursor, n - 1);
    } else {
      NoMore(rows[1..], cursor);
    }
  }

  lemma {:induction false} NoMore(rows: seq<Row>, cursor: int)
    ensures |Above(rows, cursor)| <= |rows|
  {
    if rows != [] {
      NoMore(rows[1..], cursor);
    }
  }

  /** The id of the last row, or the cursor where there is none. */
  function LastId(rows: seq<Row>, cursor: int): int {
    if rows == [] then cursor else rows[|rows| - 1].id
  }

  // ----- LoadChatMsg -----

  datatype Page = Page(rows: seq<Row>, loadMore: bool, nextCursor: int)

  function Matching(table: seq<Row>, g: nat, cursor: int): seq<Row> {
    Above(InGroup(table, g), cursor)
  }

  function Min(a: nat, b: nat): nat { if a <= b then a else b }

  function LoadPage(table: seq<Row>, g: nat, cursor: int, pageSize: nat): Page
    requires pageSize >= 1
  {
    var m := Matching(table, g, cursor);
    if |m| > pageSize then Page(m[..pageSize], true, m[pageSize - 1].id) else Page(m, false, 0)
  }

  /** LoadChatMsg: LIMIT page_size + 1, the extra row only tells that there is more. */
  method LoadChatMsg(table: seq<Row>, threadId: nat, messageId: int, pageSize: nat) returns (page: Page)
    requires pageSize >= 1
    ensures page == LoadPage(table, threadId, messageId, pageSize)
    ensures page.rows <= Matching(table, threadId, messageId)
    ensures |page.rows| == Min(|Matching(table, threadId, messageId)|, pageSize)
    ensures page.loadMore <==> |Matching(table, threadId, messageId)| > pageSize
    ensures page.nextCursor == if page.loadMore then page.rows[|page.rows| - 1].id else 0
  {
    var res := Limit(Matching(table, threadId, messageId), pageSize + 1);
    var messages: seq<Row> := [];
    for i := 0 to |res|
      invariant messages == res[..i]
    {
      messages := messages + [res[i]];
    }
    var loadMore, nextCursor := false, 0;
    if |messages| == pageSize + 1 {
      loadMore := true;
      messages := messages[..|messages| - 1];
      nextCursor := messages[|messages| - 1].id;
    }
    page := Page(messages, loadMore, nextCursor);
  }

  /** What a client that asks page after page has when it stops, or runs out of requests. */
  datatype Walked = Complete(rows: seq<Row>, last: seq<Row>, nextCursor: int) | Unfinished(rows: seq<Row>)

  function Prepend(rows: seq<Row>, w: Walked): Walked {
    if w.Complete? then Complete(rows + w.rows, w.last, w.nextCursor) else Unfinished(rows + w.rows)
  }

  /** Page i is read from tables[i], the table as it is at that moment. */
  function Walk(tables: seq<seq<Row>>, g: nat, cursor: int, pageSize: nat): Walked
    requires pageSize >= 1
    decreases |tables|
  {
    if tables == [] then Unfinished([])
    else
      var p := LoadPage(tables[0], g, cursor, pageSize);
      if p.loadMore then Prepend(p.rows, Walk(tables[1..], g, p.nextCursor, pageSize))
      else Complete(p.rows, tables[0], p.nextCursor)
  }

  /** Between two requests rows with larger ids may be appended. */
  ghost predicate Growing(tables: seq<seq<Row>>) {
    && (forall i :: 0 <= i < |tables| ==> Increasing(tables[i]))
    && (forall i, j :: 0 <= i < j < |tables| ==> tables[i] <= tables[j])
  }

  lemma MatchingIncreases(table: seq<Row>, g: nat, cursor: int)
    requires Increasing(table)
    ensures Increasing(InGroup(table, g)) && Increasing(Matching(table, g, cursor))
    ensures forall r :: r in Matching(table, g, cursor) <==> r in table && r.group == g && r.id > cursor
  {
    WhereKeepsOrder(table, IsOf(g));
    WhereKeepsOrder(InGroup(table, g), IsAbove(cursor));
    WhereMembers(table, IsOf(g));
    WhereMembers(InGroup(table, g), IsAbove(cursor));
  }

  /** Rows appended to a table are appended to what a query finds. */
  lemma MatchingGrows(table: seq<Row>, later: seq<Row>, g: nat, cursor: int)
    requires table <= later
    ensures Matching(table, g, cursor) <= Matching(later, g, cursor)
  {
    var added := later[|table|..];
    assert later == table + added;
    WhereConcat(table, added, IsOf(g));
    WhereConcat(InGroup(table, g), InGroup(added, g), IsAbove(cursor));
  }

  /** What is above the n-th matching row of an earlier state follows that row in the later one. */
  lemma MatchingCut(table: seq<Row>, later: seq<Row>, g: nat, cursor: int, n: nat)
    requires table <= later && Increasing(later) && n < |Matching(table, g, cursor)|
    ensures var m := Matching(table, g, cursor);
            Matching(later, g, cursor) == m[..n + 1] + Matching(later, g, m[n].id)
  {
    MatchingGrows(table, later, g, cursor);
    MatchingIncreases(later, g, cursor);
    CursorCuts(InGroup(later, g), cursor, n);
  }

  /** The pages together are the matching rows of the table as it is at the last page. */
  lemma {:induction false} PagesAreTheMatchingRows(tables: seq<seq<Row>>, g: nat, cursor: int, pageSize: nat) returns (n: nat)
    requires pageSize >= 1 && Growing(tables) && Walk(tables, g, cursor, pageSize).Complete?
    ensures var w := Walk(tables, g, cursor, pageSize);
            n < |tables| && w.last == tables[n] && w.rows == Matching(w.last, g, cursor)
    decreases |tables|
  {
    var p := LoadPage(tables[0], g, cursor, pageSize);
    if p.loadMore {
      n := PagesAreTheMatchingRows(tables[1..], g, p.nextCursor, pageSize);
      n := n + 1;
      MatchingCut(tables[0], tables[n], g, cursor, pageSize - 1);
    } else {
      n := 0;
    }
  }

  /** Cursor paging covers exactly once: a walk that ends has delivered, in ascending order and once
      each, precisely the rows of the thread above the start that the table holds at the last page. */
  lemma PagesCoverExactlyOnce(tables: seq<seq<Row>>, g: nat, cursor: int, pageSize: nat)
    requires pageSize >= 1 && Growing(tables) && Walk(tables, g, cursor, pageSize).Complete?
    ensures var w := Walk(tables, g, cursor, pageSize);
            && w.last in tables && Increasing(w.rows)
            && (forall r :: r in w.rows <==> r in w.last && r.group == g && r.id > cursor)
  {
    var n := PagesAreTheMatchingRows(tables, g, cursor, pageSize);
    MatchingIncreases(tables[n], g, cursor);
  }

  /** A client that later goes on from the last message it has gets exactly those of the thread that it has
      not got. */
  lemma PagesResume(tables: seq<seq<Row>>, more: seq<seq<Row>>, g: nat, cursor: int, size: nat, size': nat)
    requires size >= 1 && size' >= 1 && Growing(tables + more) && Walk(tables, g, cursor, size).Complete?
    requires Walk(more, g, LastId(Walk(tables, g, cursor, size).rows, cursor), size').Complete?
    ensures var first := Walk(tables, g, cursor, size);
            var second := Walk(more, g, LastId(first.rows, cursor), size');
            first.rows + second.rows == Matching(second.last, g, cursor)
  {
    GrowingParts(tables, more);
    var n := PagesAreTheMatchingRows(tables, g, cursor, size);
    var rows := Matching(tables[n], g, cursor);
    var k := PagesAreTheMatchingRows(more, g, LastId(rows, cursor), size');
    RowsAfter(tables[n], more[k], g, cursor);
  }

  lemma GrowingParts(tables: seq<seq<Row>>, more: seq<seq<Row>>)
    requires Growing(tables + more)
    ensures Growing(tables) && Growing(more)
    ensures forall i, j :: 0 <= i < |tables| && 0 <= j < |more| ==> tables[i] <= more[j]
  {
    var all := tables + more;
    assert forall i :: 0 <= i < |tables| ==> tables[i] == all[i];
    assert forall j :: 0 <= j < |more| ==> more[j] == all[|tables| + j];
  }

  /** What a later table has above the start is what the earlier one has, and what is above its last row. */
  lemma RowsAfter(table: seq<Row>, later: seq<Row>, g: nat, cursor: int)
    requires table <= later && Increasing(later)
    ensures var rows := Matching(table, g, cursor);
            Matching(later, g, cursor) == rows + Matching(later, g, LastId(rows, cursor))
  {
    var rows := Matching(table, g, cursor);
    if rows != [] {
      MatchingCut(table, later, g, cursor, |rows| - 1);
      assert rows[..|rows|] == rows;
    }
  }

  /** The next_cursor of a last page is 0: a client that goes on from it gets every message again. */
  lemma LastPageStartsOver(table: seq<Row>, g: nat, cursor: int, pageSize: nat)
    requires pageSize >= 1 && cursor >= 0 && !LoadPage(table, g, cursor, pageSize).loadMore
    ensures var p := LoadPage(table, g, cursor, pageSize);
            forall r :: r in p.rows ==> r in Matching(table, g, p.nextCursor)
  {
    WhereMembers(InGroup(table, g), IsAbove(cursor));
    WhereMembers(InGroup(table, g), IsAbove(0));
  }

  /** On a table that stays as it is, the walk ends within as many pages as there are rows, plus one. */
  lemma {:induction false} WalkTerminates(tables: seq<seq<Row>>, table: seq<Row>, g: nat, cursor: int, pageSize: nat)
    requires pageSize >= 1 && Increasing(table)
    requires forall i :: 0 <= i < |tables| ==> tables[i] == table
    requires |tables| > |Matching(table, g, cursor)|
    ensures Walk(tables, g, cursor, pageSize).Complete?
    decreases |tables|
  {
    var p := LoadPage(tables[0], g, cursor, pageSize);
    if p.loadMore {
      MatchingIncreases(table, g, cursor);
      CursorCuts(InGroup(table, g), cursor, pageSize - 1);
      WalkTerminates(tables[1..], table, g, p.nextCursor, pageSize);
    }
  }

  // ----- GetUserThreads: ids may repeat across private and group rows of the listing -----

  /** The UNION ALL of a user's private and group rows, ORDER BY thread_id. */
  function Merge(privates: seq<Row>, groups: seq<Row>): seq<Row>
    decreases |privates| + |groups|
  {
    if privates == [] then groups
    else if groups == [] then privates
    else if privates[0].id <= groups[0].id then [privates[0]] + Merge(privates[1..], groups)
    else [groups[0]] + Merge(privates, groups[1..])
  }

  lemma MergeTakesPrivate(p: seq<Row>, g: seq<Row>)
    requires p != [] && (g == [] || p[0].id <= g[0].id)
    ensures Merge(p, g) == [p[0]] + Merge(p[1..], g)
  {
  }

  lemma MergeTakesGroup(p: seq<Row>, g: seq<Row>)
    requires g != [] && (p == [] || g[0].id < p[0].id)
    ensures Merge(p, g) == [g[0]] + Merge(p, g[1..])
  {
  }

  lemma {:induction false} MergeMembers(privates: seq<Row>, groups: seq<Row>)
    ensures forall r :: r in Merge(privates, groups) <==> r in privates || r in groups
    decreases |privates| + |groups|
  {
    if privates != [] && groups != [] {
      if privates[0].id <= groups[0].id {
        MergeMembers(privates[1..], groups);
      } else {
        MergeMembers(privates, groups[1..]);
      }
    }
  }

  /** A user's row of the first listing and one of the second carry the same thread id. */
  ghost predicate Shared(privates: seq<Row>, groups: seq<Row>) {
    exists i, j :: 0 <= i < |privates| && 0 <= j < |groups| && privates[i].id == groups[j].id
  }

  lemma FrontAscends(r: Row, rows: seq<Row>)
    requires Ascending(rows) && forall i :: 0 <= i < |rows| ==> r.id <= rows[i].id
    ensures Ascending([r] + rows)
  {
  }

  lemma FrontIncreases(r: Row, rows: seq<Row>)
    requires Increasing(rows) && forall i :: 0 <= i < |rows| ==> r.id < rows[i].id
    ensures Increasing([r] + rows)
  {
  }

  lemma HeadRepeats(r: Row, rows: seq<Row>, s: Row)
    requires s in rows && s.id <= r.id
    ensures !Increasing([r] + rows)
  {
    var i :| 0 <= i < |rows| && rows[i] == s;
    assert ([r] + rows)[0] == r && ([r] + rows)[i + 1] == s;
  }

  lemma TailRepeats(r: Row, rows: seq<Row>)
    requires !Increasing(rows)
    ensures !Increasing([r] + rows)
  {
    var i, j :| 0 <= i < j < |rows| && rows[i].id >= rows[j].id;
    assert ([r] + rows)[i + 1] == rows[i] && ([r] + rows)[j + 1] == rows[j];
  }

  lemma {:induction false} MergeAscends(privates: seq<Row>, groups: seq<Row>)
    requires Ascending(privates) && Ascending(groups)
    ensures Ascending(Merge(privates, groups))
    decreases |privates| + |groups|
  {
    if privates != [] && groups != [] {
      var fromPrivate := privates[0].id <= groups[0].id;
      var p, g := if fromPrivate then privates[1..] else privates, if fromPrivate then groups else groups[1..];
      var r, rows := if fromPrivate then privates[0] else groups[0], Merge(p, g);
      MergeAscends(p, g);
      MergeMembers(p, g);
      forall i | 0 <= i < |rows| ensures r.id <= rows[i].id {
        assert rows[i] in p || rows[i] in g;
      }
      FrontAscends(r, rows);
    }
  }

  lemma MergedAbove(r: Row, privates: seq<Row>, groups: seq<Row>)
    requires forall s :: s in privates || s in groups ==> r.id < s.id
    ensures forall i :: 0 <= i < |Merge(privates, groups)| ==> r.id < Merge(privates, groups)[i].id
  {
    MergeMembers(privates, groups);
  }

  lemma {:induction false} MergeIncreases(privates: seq<Row>, groups: seq<Row>)
    requires Increasing(privates) && Increasing(groups) && !Shared(privates, groups)
    ensures Increasing(Merge(privates, groups))
    decreases |privates| + |groups|
  {
    if privates != [] && groups != [] {
      assert privates[0].id != groups[0].id;
      if privates[0].id <= groups[0].id {
        MergeTakesPrivate(privates, groups);
        MergeIncreases(privates[1..], groups);
        MergedAbove(privates[0], privates[1..], groups);
        FrontIncreases(privates[0], Merge(privates[1..], groups));
      } else {
        MergeTakesGroup(privates, groups);
        MergeIncreases(privates, groups[1..]);
        MergedAbove(groups[0], privates, groups[1..]);
        FrontIncreases(groups[0], Merge(privates, groups[1..]));
      }
    }
  }

  lemma {:induction false} SharedRepeats(privates: seq<Row>, groups: seq<Row>, i: nat, j: nat)
    requires Increasing(privates) && Increasing(groups)
    requires i < |privates| && j < |groups| && privates[i].id == groups[j].id
    ensures !Increasing(Merge(privates, groups))
    decreases |privates| + |groups|
  {
    if privates[0].id > groups[0].id {
      SharedRepeats(privates, groups[1..], i, j - 1);
      TailRepeats(groups[0], Merge(privates, groups[1..]));
    } else if i > 0 {
      SharedRepeats(privates[1..], groups, i - 1, j);
      TailRepeats(privates[0], Merge(privates[1..], groups));
    } else {
      MergeMembers(privates[1..], groups);
      HeadRepeats(privates[0], Merge(privates[1..], groups), groups[j]);
    }
  }

  /** One page: nextLastId is the id of its last row, or stays when the page is empty. */
  function ThreadPage(listing: seq<Row>, lastId: int, pageSize: nat): Page {
    var m := Above(listing, lastId);
    if |m| > pageSize then Page(m[..pageSize], true, if pageSize == 0 then lastId else m[pageSize - 1].id)
    else Page(m, false, if m == [] then lastId else m[|m| - 1].id)
  }

  lemma {:induction false} AboveMerges(privates: seq<Row>, groups: seq<Row>, lastId: int)
    requires Ascending(privates) && Ascending(groups)
    ensures Above(Merge(privates, groups), lastId) == Merge(Above(privates, lastId), Above(groups, lastId))
    decreases |privates| + |groups|
  {
    if privates != [] && groups != [] {
      if privates[0].id <= groups[0].id {
        AboveMerges(privates[1..], groups, lastId);
        if privates[0].id > lastId {
          AboveIsSuffix(groups, lastId, 0);
        }
      } else {
        AboveMerges(privates, groups[1..], lastId);
        if groups[0].id > lastId {
          AboveIsSuffix(privates, lastId, 0);
        }
      }
    }
  }

  /** GetUserThreads: each half of the UNION is cut at lastId, then ordered and limited. */
  method GetUserThreads(privates: seq<Row>, groups: seq<Row>, lastId: int, pageSize: nat) returns (page: Page)
    requires Increasing(privates) && Increasing(groups)
    ensures page == ThreadPage(Merge(privates, groups), lastId, pageSize)
    ensures page.rows <= Above(Merge(privates, groups), lastId)
    ensures |page.rows| == Min(|Above(Merge(privates, groups), lastId)|, pageSize)
    ensures page.loadMore <==> |Above(Merge(privates, groups), lastId)| > pageSize
    ensures page.nextCursor == if page.rows == [] then lastId else page.rows[|page.rows| - 1].id
  {
    AboveMerges(privates, groups, lastId);
    var res := Limit(Merge(Above(privates, lastId), Above(groups, lastId)), pageSize + 1);
    var tmp: seq<Row> := [];
    for i := 0 to |res|
      invariant tmp == res[..i]
    {
      tmp := tmp + [res[i]];
    }
    var loadMore, nextLastId := false, lastId;
    if |tmp| > pageSize {
      loadMore := true;
      tmp := tmp[..|tmp| - 1];
    }
    if tmp != [] {
      nextLastId := tmp[|tmp| - 1].id;
    }
    page := Page(tmp, loadMore, nextLastId);
  }

  /** Page i is read from listings[i], the listing as it is at that moment. */
  function ThreadWalk(listings: seq<seq<Row>>, lastId: int, pageSize: nat): Walked
    decreases |listings|
  {
    if listings == [] then Unfinished([])
    else
      var p := ThreadPage(listings[0], lastId, pageSize);
      if p.loadMore then Prepend(p.rows, ThreadWalk(listings[1..], p.nextCursor, pageSize))
      else Complete(p.rows, listings[0], p.nextCursor)
  }

  /** Between two requests rows may be appended; every listing is a part of `final`. */
  ghost predicate GrowsTo(listings: seq<seq<Row>>, final: seq<Row>) {
    && (forall i :: 0 <= i < |listings| ==> listings[i] <= final)
    && (forall i, j :: 0 <= i < j < |listings| ==> listings[i] <= listings[j])
  }

  lemma PartAscends(part: seq<Row>, rows: seq<Row>)
    requires part <= rows
    ensures (Ascending(rows) ==> Ascending(part)) && (Increasing(rows) ==> Increasing(part))
  {
    assert forall i :: 0 <= i < |part| ==> part[i] == rows[i];
  }

  lemma AboveGrows(listing: seq<Row>, later: seq<Row>, lastId: int)
    requires listing <= later
    ensures Above(listing, lastId) <= Above(later, lastId)
  {
    assert later == listing + later[|listing|..];
    WhereConcat(listing, later[|listing|..], IsAbove(lastId));
  }

  /** The walk delivers no row at or below its start. */
  lemma {:induction false} ThreadsAreAbove(listings: seq<seq<Row>>, final: seq<Row>, lastId: int, pageSize: nat)
    requires pageSize >= 1 && Ascending(final) && GrowsTo(listings, final)
    ensures forall r :: r in ThreadWalk(listings, lastId, pageSize).rows ==> r.id > lastId
    decreases |listings|
  {
    if listings != [] {
      var listing := listings[0];
      var p := ThreadPage(listing, lastId, pageSize);
      PartAscends(listing, final);
      WhereMembers(listing, IsAbove(lastId));
      assert forall r :: r in p.rows ==> r in Above(listing, lastId);
      if p.loadMore {
        CursorCuts(listing, lastId, pageSize - 1);
        ThreadsAreAbove(listings[1..], final, p.nextCursor, pageSize);
      }
    }
  }

  /** What follows the n-th row above the start in an earlier listing follows it in the later one. */
  lemma ThreadCut(listing: seq<Row>, later: seq<Row>, lastId: int, n: nat)
    requires listing <= later && Ascending(later) && Increasing(Above(later, lastId)) && n < |Above(listing, lastId)|
    ensures var m := Above(listing, lastId);
            Above(later, lastId) == m[..n + 1] + Above(later, m[n].id)
  {
    AboveGrows(listing, later, lastId);
    CursorCuts(later, lastId, n);
  }

  /** Without a repeated id the pages together are the rows above the start in the listing as it is at
      the last page. */
  lemma {:induction false} DistinctThreadsCovered(listings: seq<seq<Row>>, final: seq<Row>, lastId: int, pageSize: nat)
    returns (n: nat)
    requires pageSize >= 1 && Ascending(final) && GrowsTo(listings, final) && Increasing(Above(final, lastId))
    requires ThreadWalk(listings, lastId, pageSize).Complete?
    ensures var w := ThreadWalk(listings, lastId, pageSize);
            n < |listings| && w.last == listings[n] && w.rows == Above(w.last, lastId)
    decreases |listings|
  {
    var p := ThreadPage(listings[0], lastId, pageSize);
    if p.loadMore {
      var cursor := p.nextCursor;
      assert Increasing(Above(final, cursor)) by {
        AboveGrows(listings[0], final, lastId);
        ThreadCut(listings[0], final, lastId, pageSize - 1);
        SuffixIncreases(Above(listings[0], lastId)[..pageSize], Above(final, cursor));
      }
      n := DistinctThreadsCovered(listings[1..], final, cursor, pageSize);
      n := n + 1;
      assert listings[0] <= listings[n] <= final;
      PartAscends(listings[n], final);
      AboveGrows(listings[n], final, lastId);
      PartAscends(Above(listings[n], lastId), Above(final, lastId));
      ThreadCut(listings[0], listings[n], lastId, pageSize - 1);
    } else {
      n := 0;
    }
  }

  /** The cursor that a walk ends with is the id of the last row that it has delivered. */
  lemma {:induction false} ThreadWalkCursor(listings: seq<seq<Row>>, lastId: int, pageSize: nat)
    requires pageSize >= 1 && ThreadWalk(listings, lastId, pageSize).Complete?
    ensures var w := ThreadWalk(listings, lastId, pageSize); w.nextCursor == LastId(w.rows, lastId)
    decreases |listings|
  {
    var p := ThreadPage(listings[0], lastId, pageSize);
    if p.loadMore {
      ThreadWalkCursor(listings[1..], p.nextCursor, pageSize);
    }
  }

  /** Without a repeated id, a client that later goes on from the cursor of a completed walk gets exactly the
      threads that it has not got. */
  lemma {:induction false} ThreadsResume(listings: seq<seq<Row>>, more: seq<seq<Row>>, final: seq<Row>, lastId: int,
                                         size: nat, size': nat)
    requires size >= 1 && size' >= 1 && Ascending(final) && Increasing(Above(final, lastId))
    requires GrowsTo(listings + more, final) && ThreadWalk(listings, lastId, size).Complete?
    requires ThreadWalk(more, ThreadWalk(listings, lastId, size).nextCursor, size').Complete?
    ensures var first := ThreadWalk(listings, lastId, size);
            var second := ThreadWalk(more, first.nextCursor, size');
            first.rows + second.rows == Above(second.last, lastId)
  {
    var all := listings + more;
    assert listings == all[..|listings|] && more == all[|listings|..];
    ThreadWalkCursor(listings, lastId, size);
    var n := DistinctThreadsCovered(listings, final, lastId, size);
    var rows := Above(listings[n], lastId);
    assert all[n] == listings[n] && listings[n] <= final;
    CursorKeepsDistinct(listings[n], final, lastId);
    var k := DistinctThreadsCovered(more, final, LastId(rows, lastId), size');
    assert all[|listings| + k] == more[k];
    RestAfter(listings[n], more[k], final, lastId);
  }

  /** What a later listing has above the start is what the earlier one has, and what is above its last row. */
  lemma RestAfter(listing: seq<Row>, later: seq<Row>, final: seq<Row>, lastId: int)
    requires listing <= later <= final && Ascending(final) && Increasing(Above(final, lastId))
    ensures var rows := Above(listing, lastId); Above(later, lastId) == rows + Above(later, LastId(rows, lastId))
  {
    var rows := Above(listing, lastId);
    if rows != [] {
      PartAscends(later, final);
      AboveGrows(later, final, lastId);
      PartAscends(Above(later, lastId), Above(final, lastId));
      ThreadCut(listing, later, lastId, |rows| - 1);
      assert rows[..|rows|] == rows;
    }
  }

  lemma CursorKeepsDistinct(listing: seq<Row>, final: seq<Row>, lastId: int)
    requires listing <= final && Ascending(final) && Increasing(Above(final, lastId))
    ensures Increasing(Above(final, LastId(Above(listing, lastId), lastId)))
  {
    var rows := Above(listing, lastId);
    if rows != [] {
      ThreadCut(listing, final, lastId, |rows| - 1);
      SuffixIncreases(rows[..|rows|], Above(final, LastId(rows, lastId)));
    }
  }

  lemma SuffixIncreases(front: seq<Row>, back: seq<Row>)
    requires Increasing(front + back)
    ensures Increasing(back)
  {
    assert forall i :: 0 <= i < |back| ==> back[i] == (front + back)[|front| + i];
  }

  /** On a listing that stays as it is the walk ends within as many pages as there are rows, plus one. */
  lemma {:induction false} ThreadWalkTerminates(listings: seq<seq<Row>>, listing: seq<Row>, lastId: int, pageSize: nat)
    requires pageSize >= 1 && Ascending(listing) && forall i :: 0 <= i < |listings| ==> listings[i] == listing
    requires |listings| > |Above(listing, lastId)|
    ensures ThreadWalk(listings, lastId, pageSize).Complete?
    decreases |listings|
  {
    var p := ThreadPage(listing, lastId, pageSize);
    if p.loadMore {
      CursorCuts(listing, lastId, pageSize - 1);
      ThreadWalkTerminates(listings[1..], listing, p.nextCursor, pageSize);
    }
  }

  /** Two rows with one id on either side of a page boundary: the second is lost. */
  lemma BoundaryLosesRow(listing: seq<Row>, lastId: int, i: nat) returns (listings: seq<seq<Row>>)
    requires Ascending(listing) && i + 1 < |Above(listing, lastId)|
    requires Above(listing, lastId)[i].id == Above(listing, lastId)[i + 1].id
    ensures GrowsTo(listings, listing) && ThreadWalk(listings, lastId, i + 1).Complete?
    ensures ThreadWalk(listings, lastId, i + 1).last == listing
    ensures ThreadWalk(listings, lastId, i + 1).rows != Above(listing, lastId)
  {
    var m := Above(listing, lastId);
    listings := seq(|m| + 1, _ => listing);
    ThreadWalkTerminates(listings, listing, lastId, i + 1);
    LastIsThere(listings, lastId, i + 1);
    var later := ThreadWalk(listings[1..], m[i].id, i + 1).rows;
    var all := ThreadWalk(listings, lastId, i + 1).rows;
    assert ThreadPage(listings[0], lastId, i + 1).rows == m[..i + 1];
    assert all == m[..i + 1] + later;
    ThreadsAreAbove(listings[1..], listing, m[i].id, i + 1);
    if |all| == |m| {
      assert all[i + 1] == later[0] && later[0] in later;
    }
  }

  lemma {:induction false} LastIsThere(listings: seq<seq<Row>>, lastId: int, pageSize: nat)
    requires ThreadWalk(listings, lastId, pageSize).Complete?
    ensures ThreadWalk(listings, lastId, pageSize).last in listings
    decreases |listings|
  {
    var p := ThreadPage(listings[0], lastId, pageSize);
    if p.loadMore {
      LastIsThere(listings[1..], p.nextCursor, pageSize);
    }
  }

  lemma RepeatIsNextTo(rows: seq<Row>) returns (i: nat)
    requires Ascending(rows) && !Increasing(rows)
    ensures i + 1 < |rows| && rows[i].id == rows[i + 1].id
  {
    var a, b :| 0 <= a < b < |rows| && rows[a].id >= rows[b].id;
    assert rows[a].id <= rows[a + 1].id;
    assert a + 1 == b || rows[a + 1].id <= rows[b].id;
    i := a;
  }

  /** Every walk over listings that grow towards `final`, with every page size, delivers exactly what its
      last listing holds above the start. */
  ghost predicate AllWalksCover(final: seq<Row>, lastId: int) {
    forall listings, n: nat :: n >= 1 && GrowsTo(listings, final) && ThreadWalk(listings, lastId, n).Complete? ==>
      ThreadWalk(listings, lastId, n).rows == Above(ThreadWalk(listings, lastId, n).last, lastId)
  }

  /** That is so if and only if no thread id occurs twice above the start: two rows with one id are split
      by some page boundary, and the second is lost. */
  lemma ThreadPagesCoverIff(final: seq<Row>, lastId: int)
    requires Ascending(final)
    ensures AllWalksCover(final, lastId) <==> Increasing(Above(final, lastId))
  {
    if Increasing(Above(final, lastId)) {
      forall listings, n: nat | n >= 1 && GrowsTo(listings, final) && ThreadWalk(listings, lastId, n).Complete?
        ensures ThreadWalk(listings, lastId, n).rows == Above(ThreadWalk(listings, lastId, n).last, lastId)
      {
        var k := DistinctThreadsCovered(listings, final, lastId, n);
      }
    } else {
      WhereKeepsOrder(final, IsAbove(lastId));
      var i := RepeatIsNextTo(Above(final, lastId));
      var listings := BoundaryLosesRow(final, lastId, i);
    }
  }

  /** In terms of the tables: every start is served without a loss if and only if none of the user's
      private chats has the thread id of one of the user's groups. */
  lemma ThreadPagerLosesNothingIff(privates: seq<Row>, groups: seq<Row>)
    requires Increasing(privates) && Increasing(groups)
    ensures (forall lastId :: AllWalksCover(Merge(privates, groups), lastId)) <==> !Shared(privates, groups)
  {
    var final := Merge(privates, groups);
    MergeAscends(privates, groups);
    if Shared(privates, groups) {
      var i, j :| 0 <= i < |privates| && 0 <= j < |groups| && privates[i].id == groups[j].id;
      SharedRepeats(privates, groups, i, j);
      AboveIsSuffix(final, -1, 0);
      ThreadPagesCoverIff(final, -1);
    } else {
      MergeIncreases(privates, groups);
      forall lastId ensures AllWalksCover(final, lastId) {
        WhereKeepsOrder(final, IsAbove(lastId));
        ThreadPagesCoverIff(final, lastId);
      }
    }
  }

  // ----- both tables grow -----

  /** Rows with ids larger than all that were there are appended to either table. */
  ghost predicate Appended(privates: seq<Row>, groups: seq<Row>, privates': seq<Row>, groups': seq<Row>) {
    && privates <= privates' && groups <= groups'
    && (forall r, s :: (r in privates || r in groups) && (s in privates'[|privates|..] || s in groups'[|groups|..]) ==>
          r.id < s.id)
  }

  /** All rows of the first two tables are below all of the others. */
  ghost predicate AllBelow(p: seq<Row>, g: seq<Row>, a: seq<Row>, b: seq<Row>) {
    forall r, s :: (r in p || r in g) && (s in a || s in b) ==> r.id < s.id
  }

  lemma FewerBelow(p: seq<Row>, g: seq<Row>, a: seq<Row>, b: seq<Row>, p': seq<Row>, g': seq<Row>)
    requires AllBelow(p, g, a, b) && (forall r :: r in p' ==> r in p) && (forall r :: r in g' ==> r in g)
    ensures AllBelow(p', g', a, b)
  {
  }

  lemma FirstBelow(p: seq<Row>, g: seq<Row>, a: seq<Row>, b: seq<Row>)
    requires AllBelow(p, g, a, b)
    ensures p != [] && b != [] ==> p[0].id < b[0].id
    ensures g != [] && a != [] ==> g[0].id < a[0].id
  {
    assert p != [] ==> p[0] in p;
    assert g != [] ==> g[0] in g;
  }

  lemma {:induction false} MergeOfLarger(p: seq<Row>, g: seq<Row>, a: seq<Row>, b: seq<Row>)
    requires AllBelow(p, g, a, b)
    ensures Merge(p + a, g + b) == Merge(p, g) + Merge(a, b)
    decreases |p| + |g|
  {
    FirstBelow(p, g, a, b);
    if p == [] && g == [] {
      assert p + a == a && g + b == b;
    } else if p != [] && (g == [] || p[0].id <= g[0].id) {
      FewerBelow(p, g, a, b, p[1..], g);
      MergeOfLarger(p[1..], g, a, b);
      TailOfSum(p, a);
      MergeTakesPrivate(p, g);
      MergeTakesPrivate(p + a, g + b);
      RegroupRows([p[0]], Merge(p[1..], g), Merge(a, b));
    } else {
      FewerBelow(p, g, a, b, p, g[1..]);
      MergeOfLarger(p, g[1..], a, b);
      TailOfSum(g, b);
      MergeTakesGroup(p, g);
      MergeTakesGroup(p + a, g + b);
      RegroupRows([g[0]], Merge(p, g[1..]), Merge(a, b));
    }
  }

  lemma ListingGrows(privates: seq<Row>, groups: seq<Row>, privates': seq<Row>, groups': seq<Row>)
    requires Appended(privates, groups, privates', groups')
    ensures Merge(privates, groups) <= Merge(privates', groups')
  {
    var a, b := privates'[|privates|..], groups'[|groups|..];
    assert privates' == privates + a && groups' == groups + b;
    MergeOfLarger(privates, groups, a, b);
  }

  ghost predicate TablesGrow(ps: seq<seq<Row>>, gs: seq<seq<Row>>) {
    && |ps| == |gs| && (forall i :: 0 <= i < |ps| ==> Increasing(ps[i]) && Increasing(gs[i]))
    && (forall i, j :: 0 <= i < j < |ps| ==> AppendedBetween(ps, gs, i, j))
  }

  ghost predicate AppendedBetween(ps: seq<seq<Row>>, gs: seq<seq<Row>>, i: nat, j: nat)
    requires i < j < |ps| == |gs|
  {
    Appended(ps[i], gs[i], ps[j], gs[j])
  }

  function Listings(ps: seq<seq<Row>>, gs: seq<seq<Row>>): seq<seq<Row>>
    requires |ps| == |gs|
  {
    seq(|ps|, i requires 0 <= i < |ps| => Merge(ps[i], gs[i]))
  }

  lemma PairGrows(ps: seq<seq<Row>>, gs: seq<seq<Row>>, i: nat, j: nat)
    requires TablesGrow(ps, gs) && i < j < |ps|
    ensures Merge(ps[i], gs[i]) <= Merge(ps[j], gs[j])
  {
    assert AppendedBetween(ps, gs, i, j);
    ListingGrows(ps[i], gs[i], ps[j], gs[j]);
  }

  lemma LastIsFinal(listings: seq<seq<Row>>)
    requires listings != [] && forall i, j :: 0 <= i < j < |listings| ==> listings[i] <= listings[j]
    ensures GrowsTo(listings, listings[|listings| - 1])
  {
  }

  lemma ListingsGrow(ps: seq<seq<Row>>, gs: seq<seq<Row>>)
    requires TablesGrow(ps, gs) && ps != []
    ensures GrowsTo(Listings(ps, gs), Merge(ps[|ps| - 1], gs[|gs| - 1]))
  {
    var listings := Listings(ps, gs);
    forall i, j | 0 <= i < j < |listings| ensures listings[i] <= listings[j] {
      PairGrows(ps, gs, i, j);
    }
    LastIsFinal(listings);
  }

  lemma PartOfFinal(listing: seq<Row>, final: seq<Row>, lastId: int)
    requires listing <= final && Increasing(final)
    ensures Increasing(Above(listing, lastId))
    ensures forall r :: r in Above(listing, lastId) <==> r in listing && r.id > lastId
  {
    PartAscends(listing, final);
    WhereKeepsOrder(listing, IsAbove(lastId));
    WhereMembers(listing, IsAbove(lastId));
  }

  /** Cursor paging of the threads covers exactly once, also while both tables grow: a walk that ends
      has delivered, in ascending order and once each, precisely the user's private chats and groups
      above the start that the tables hold at the last page, if no thread is both. */
  lemma ThreadsCoverExactlyOnce(ps: seq<seq<Row>>, gs: seq<seq<Row>>, lastId: int, pageSize: nat) returns (n: nat)
    requires pageSize >= 1 && TablesGrow(ps, gs) && ps != [] && !Shared(ps[|ps| - 1], gs[|gs| - 1])
    requires ThreadWalk(Listings(ps, gs), lastId, pageSize).Complete?
    ensures var rows := ThreadWalk(Listings(ps, gs), lastId, pageSize).rows;
            && n < |ps| && Increasing(rows)
            && (forall r :: r in rows <==> (r in ps[n] || r in gs[n]) && r.id > lastId)
  {
    var final := Merge(ps[|ps| - 1], gs[|gs| - 1]);
    ListingsGrow(ps, gs);
    MergeIncreases(ps[|ps| - 1], gs[|gs| - 1]);
    WhereKeepsOrder(final, IsAbove(lastId));
    n := DistinctThreadsCovered(Listings(ps, gs), final, lastId, pageSize);
    PartOfFinal(Listings(ps, gs)[n], final, lastId);
    MergeMembers(ps[n], gs[n]);
  }

  /** With page size 0 the pager says there is more and never moves. */
  lemma PageSizeZeroNeverMoves(listing: seq<Row>, lastId: int)
    requires Above(listing, lastId) != []
    ensures ThreadPage(listing, lastId, 0) == Page([], true, lastId)
  {
  }
}
