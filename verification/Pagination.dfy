/** Keyset pagination of the conversation list, served from a table that may change between two pages. */
module Pagination {
  import opened Options
  import opened JsonText
  import opened Sequences
  import Lex
  import Cursor

  type Key = Cursor.Key

  /** A row of mail_threads; `data` stands for the columns only the filters look at. */
  datatype Thread = Thread(last: Text, id: Text, data: int)

  type Filter = Thread -> bool

  function KeyOf(th: Thread): Key { Cursor.Key(th.last, th.id) }

  /** ORDER BY last_message_at DESC, thread_id DESC */
  predicate Precedes(a: Key, b: Key) { Lex.Less(b.t, a.t) || (a.t == b.t && Lex.Less(b.i, a.i)) }

  /** The cursor's WHERE condition. */
  predicate Follows(after: Option<Key>, th: Thread) { after.None? || Precedes(after.value, KeyOf(th)) }

  lemma PrecedesIsTransitive(a: Key, b: Key, c: Key)
    requires Precedes(a, b) && Precedes(b, c)
    ensures Precedes(a, c)
  {
    if Lex.Less(b.t, a.t) && Lex.Less(c.t, b.t) { Lex.LessIsTransitive(c.t, b.t, a.t); }
    if Lex.Less(b.i, a.i) && Lex.Less(c.i, b.i) { Lex.LessIsTransitive(c.i, b.i, a.i); }
  }

  lemma PrecedesIsStrictTotal(a: Key, b: Key)
    ensures !Precedes(a, a)
    ensures Precedes(a, b) || a == b || Precedes(b, a)
    ensures !(Precedes(a, b) && Precedes(b, a))
  {
    Lex.LessIsIrreflexive(a.t);
    Lex.LessIsIrreflexive(a.i);
    Lex.LessIsTotal(a.t, b.t);
    Lex.LessIsTotal(a.i, b.i);
    if Precedes(a, b) && Precedes(b, a) {
      PrecedesIsTransitive(a, b, a);
      assert false;
    }
  }

  // ---------------------------------------------------------------- the query

  function Matching(table: seq<Thread>, f: Filter, after: Option<Key>): seq<Thread> {
    if table == [] then []
    else (if f(table[0]) && Follows(after, table[0]) then [table[0]] else []) + Matching(table[1..], f, after)
  }

  function Insert(th: Thread, s: seq<Thread>): seq<Thread> {
    if s == [] || Precedes(KeyOf(th), KeyOf(s[0])) then [th] + s else [s[0]] + Insert(th, s[1..])
  }

  function Sort(s: seq<Thread>): seq<Thread> { if s == [] then [] else Insert(s[0], Sort(s[1..])) }

  /** Every row the query selects, without its LIMIT. */
  function Listing(table: seq<Thread>, f: Filter, after: Option<Key>): seq<Thread> { Sort(Matching(table, f, after)) }

  /** A page and the key of the last row on it, if there is another page. */
  datatype Page = Page(threads: seq<Thread>, next: Option<Key>)

  /** One row more than the page is fetched to see whether there is another page. */
  function OnePage(table: seq<Thread>, f: Filter, limit: nat, after: Option<Key>): Page {
    var rows := Take(Listing(table, f, after), limit + 1);
    var hasMore := |rows| > limit;
    var page := Take(rows, limit);
    Page(page, if hasMore && page != [] then Some(KeyOf(page[|page| - 1])) else None)
  }

  /** A client asks for page after page; the k-th request is served from tables[k]. */
  function Walk(tables: seq<seq<Thread>>, f: Filter, limit: nat, after: Option<Key>): seq<Page> {
    if tables == [] then []
    else
      var p := OnePage(tables[0], f, limit, after);
      [p] + if p.next.None? then [] else Walk(tables[1..], f, limit, p.next)
  }

  function Shown(pages: seq<Page>): seq<Thread> {
    if pages == [] then [] else pages[0].threads + Shown(pages[1..])
  }

  // ---------------------------------------------------------------- the listing

  /** thread_id is the primary key. */
  predicate DistinctIds(table: seq<Thread>) { forall i, j :: 0 <= i < j < |table| ==> table[i].id != table[j].id }

  predicate Sorted(s: seq<Thread>) { forall i, j :: 0 <= i < j < |s| ==> Precedes(KeyOf(s[i]), KeyOf(s[j])) }

  lemma {:induction false} MatchingIs(table: seq<Thread>, f: Filter, after: Option<Key>)
    ensures forall th :: th in Matching(table, f, after) <==> th in table && f(th) && Follows(after, th)
    ensures DistinctIds(table) ==> DistinctIds(Matching(table, f, after))
  {
    if table != [] {
      MatchingIs(table[1..], f, after);
      var rest := Matching(table[1..], f, after);
      if DistinctIds(table) {
        forall j | 0 <= j < |rest| ensures rest[j].id != table[0].id {
          assert rest[j] in table[1..];
          var k :| 1 <= k < |table| && table[k] == rest[j];
        }
      }
    }
  }

  lemma {:induction false} InsertIs(th: Thread, s: seq<Thread>)
    requires Sorted(s) && forall x :: x in s ==> x.id != th.id
    ensures Sorted(Insert(th, s)) && forall x :: x in Insert(th, s) <==> x == th || x in s
  {
    if s == [] {
    } else if Precedes(KeyOf(th), KeyOf(s[0])) {
      var t := Insert(th, s);
      forall j | 1 <= j < |t| ensures Precedes(KeyOf(th), KeyOf(t[j])) {
        if j > 1 { PrecedesIsTransitive(KeyOf(th), KeyOf(s[0]), KeyOf(s[j - 1])); }
      }
    } else {
      assert s[0] in s;
      PrecedesIsStrictTotal(KeyOf(th), KeyOf(s[0]));
      InsertIs(th, s[1..]);
      var t := Insert(th, s[1..]);
      forall j | 0 <= j < |t| ensures Precedes(KeyOf(s[0]), KeyOf(t[j])) { assert t[j] in t; }
    }
  }

  lemma {:induction false} SortIs(s: seq<Thread>)
    requires DistinctIds(s)
    ensures Sorted(Sort(s)) && forall x :: x in Sort(s) <==> x in s
  {
    if s != [] {
      SortIs(s[1..]);
      InsertIs(s[0], Sort(s[1..]));
    }
  }

  /** The listing is the filtered rows after the cursor, in strictly descending order. */
  lemma ListingIs(table: seq<Thread>, f: Filter, after: Option<Key>)
    requires DistinctIds(table)
    ensures Sorted(Listing(table, f, after))
    ensures forall th :: th in Listing(table, f, after) <==> th in table && f(th) && Follows(after, th)
  {
    MatchingIs(table, f, after);
    SortIs(Matching(table, f, after));
  }

  lemma SameMembersBothEmpty(a: seq<Thread>, b: seq<Thread>)
    requires forall x :: x in a <==> x in b
    ensures a == [] <==> b == []
  {
    if a != [] { assert a[0] in a; }
    if b != [] { assert b[0] in b; }
  }

  lemma {:induction false} SortedIsUnique(a: seq<Thread>, b: seq<Thread>)
    requires Sorted(a) && Sorted(b) && forall x :: x in a <==> x in b
    ensures a == b
  {
    SameMembersBothEmpty(a, b);
    if a != [] {
      assert a[0] in b && b[0] in a;
      PrecedesIsStrictTotal(KeyOf(a[0]), KeyOf(b[0]));
      assert a[0] == b[0];
      RestWithoutFirst(a);
      RestWithoutFirst(b);
      SortedIsUnique(a[1..], b[1..]);
      assert a == [a[0]] + a[1..] && b == [b[0]] + b[1..];
    }
  }

  lemma RestWithoutFirst(s: seq<Thread>)
    requires Sorted(s) && s != []
    ensures Sorted(s[1..]) && forall x :: x in s[1..] <==> x in s && x != s[0]
  {
    PrecedesIsStrictTotal(KeyOf(s[0]), KeyOf(s[0]));
  }

  // ---------------------------------------------------------------- a table that does not change

  lemma OnePageIs(table: seq<Thread>, f: Filter, limit: nat, after: Option<Key>)
    requires limit >= 1
    ensures var all, p := Listing(table, f, after), OnePage(table, f, limit, after);
            p.threads == Take(all, limit) && p.next == if |all| > limit then Some(KeyOf(all[limit - 1])) else None
  {
  }

  /** A row follows the key of another exactly when it comes later in the list. */
  lemma FollowsMeansLater(s: seq<Thread>, i: nat, j: nat)
    requires Sorted(s) && i < |s| && j < |s|
    ensures Precedes(KeyOf(s[i]), KeyOf(s[j])) <==> i < j
  {
    PrecedesIsStrictTotal(KeyOf(s[i]), KeyOf(s[j]));
  }

  /** The rows after a page's last row are the rest of the listing. */
  lemma ListingAfter(table: seq<Thread>, f: Filter, after: Option<Key>, limit: nat)
    requires DistinctIds(table) && 1 <= limit < |Listing(table, f, after)|
    ensures var all := Listing(table, f, after);
            Listing(table, f, Some(KeyOf(all[limit - 1]))) == all[limit..]
  {
    var all := Listing(table, f, after);
    var k := KeyOf(all[limit - 1]);
    ListingIs(table, f, after);
    ListingIs(table, f, Some(k));
    assert all[limit - 1] in all;
    forall x | x in all[limit..] ensures x in Listing(table, f, Some(k)) {
      var j :| limit <= j < |all| && all[j] == x;
      assert x in all;
    }
    forall x | x in Listing(table, f, Some(k)) ensures x in all[limit..] {
      if after.Some? { PrecedesIsTransitive(after.value, k, KeyOf(x)); }
      assert x in all;
      var j :| 0 <= j < |all| && all[j] == x;
      FollowsMeansLater(all, limit - 1, j);
      assert all[limit..][j - limit] == x;
    }
    SortedIsUnique(all[limit..], Listing(table, f, Some(k)));
  }

  function Same(table: seq<Thread>, requests: nat): seq<seq<Thread>> { seq(requests, _ => table) }

  function PageCount(rows: nat, limit: nat): nat
    requires limit >= 1
  {
    if rows <= limit then 1 else 1 + PageCount(rows - limit, limit)
  }

  /** max(1, ceil(rows / limit)) */
  lemma {:induction false} PageCountIsCeiling(rows: nat, limit: nat)
    requires limit >= 1
    ensures var n := PageCount(rows, limit); n >= 1 && rows <= n * limit && (n > 1 ==> (n - 1) * limit < rows)
  {
    if rows > limit { PageCountIsCeiling(rows - limit, limit); }
  }

  lemma WalkStep(table: seq<Thread>, f: Filter, limit: nat, after: Option<Key>, requests: nat)
    requires requests >= 1
    ensures var p, pages := OnePage(table, f, limit, after), Walk(Same(table, requests), f, limit, after);
            pages == [p] + if p.next.None? then [] else Walk(Same(table, requests - 1), f, limit, p.next)
  {
    assert Same(table, requests)[1..] == Same(table, requests - 1);
  }

  lemma PagesAddUp(all: seq<Thread>, limit: nat, p: Page, pages: seq<Page>)
    requires limit >= 1 && p.threads == Take(all, limit)
    requires |all| > limit ==> Shown(pages) == all[limit..] && |pages| == PageCount(|all| - limit, limit)
    requires |all| <= limit ==> pages == []
    ensures Shown([p] + pages) == all && |[p] + pages| == PageCount(|all|, limit)
  {
  }

  /** These pages are the whole listing, in order, and as many as they should be. */
  ghost predicate AreListing(pages: seq<Page>, all: seq<Thread>, limit: nat)
    requires limit >= 1
  {
    Shown(pages) == all && |pages| == PageCount(|all|, limit)
  }

  lemma MorePages(table: seq<Thread>, f: Filter, limit: nat, after: Option<Key>, requests: nat)
    requires DistinctIds(table) && limit >= 1 && requests >= 1 && |Listing(table, f, after)| > limit
    requires AreListing(Walk(Same(table, requests - 1), f, limit, OnePage(table, f, limit, after).next), Listing(table, f, after)[limit..], limit)
    ensures AreListing(Walk(Same(table, requests), f, limit, after), Listing(table, f, after), limit)
  {
    var p, all := OnePage(table, f, limit, after), Listing(table, f, after);
    var more := Walk(Same(table, requests - 1), f, limit, p.next);
    OnePageIs(table, f, limit, after);
    WalkStep(table, f, limit, after, requests);
    PagesAddUp(all, limit, p, more);
    assert Walk(Same(table, requests), f, limit, after) == [p] + more;
  }

  lemma LastPage(table: seq<Thread>, f: Filter, limit: nat, after: Option<Key>, requests: nat)
    requires limit >= 1 && requests >= 1 && |Listing(table, f, after)| <= limit
    ensures AreListing(Walk(Same(table, requests), f, limit, after), Listing(table, f, after), limit)
  {
  }

  /** Asking for page after page visits the whole listing, in order. */
  lemma {:induction false} StaticWalk(table: seq<Thread>, f: Filter, limit: nat, after: Option<Key>, requests: nat)
    requires DistinctIds(table) && limit >= 1 && requests >= PageCount(|Listing(table, f, after)|, limit)
    ensures AreListing(Walk(Same(table, requests), f, limit, after), Listing(table, f, after), limit)
    decreases requests
  {
    if |Listing(table, f, after)| > limit {
      OnePageIs(table, f, limit, after);
      ListingAfter(table, f, after, limit);
      StaticWalk(table, f, limit, OnePage(table, f, limit, after).next, requests - 1);
      MorePages(table, f, limit, after, requests);
    } else {
      LastPage(table, f, limit, after, requests);
    }
  }

  // ---------------------------------------------------------------- a table that changes

  /** How many of the shown rows carry this id. */
  function Times(id: Text, s: seq<Thread>): nat {
    if s == [] then 0 else (if s[0].id == id then 1 else 0) + Times(id, s[1..])
  }

  lemma {:induction false} TimesAppend(id: Text, a: seq<Thread>, b: seq<Thread>)
    ensures Times(id, a + b) == Times(id, a) + Times(id, b)
  {
    if a == [] {
      assert a + b == b;
    } else {
      assert (a + b)[1..] == a[1..] + b;
      TimesAppend(id, a[1..], b);
    }
  }

  lemma {:induction false} TimesOfSorted(th: Thread, s: seq<Thread>)
    requires Sorted(s) && forall x :: x in s && x.id == th.id ==> x == th
    ensures Times(th.id, s) == if th in s then 1 else 0
  {
    if s != [] {
      RestWithoutFirst(s);
      TimesOfSorted(th, s[1..]);
    }
  }

  /** Complete: the client reached a page that is the last. */
  predicate Complete(pages: seq<Page>) { pages != [] && pages[|pages| - 1].next.None? }

  /** A row of the listing is on the first page unless it follows that page's last row. */
  lemma OnFirstPage(all: seq<Thread>, limit: nat, th: Thread)
    requires Sorted(all) && limit >= 1 && th in all
    ensures th in Take(all, limit) <==> |all| <= limit || !Precedes(KeyOf(all[limit - 1]), KeyOf(th))
  {
    var j :| 0 <= j < |all| && all[j] == th;
    if |all| > limit {
      FollowsMeansLater(all, limit - 1, j);
      if j < limit { assert all[..limit][j] == th; }
      if th in all[..limit] {
        var i :| 0 <= i < limit && all[i] == th;
        FollowsMeansLater(all, limit - 1, i);
      }
    }
  }

  lemma OnOnePage(table: seq<Thread>, f: Filter, limit: nat, after: Option<Key>, th: Thread)
    requires DistinctIds(table) && limit >= 1 && th in table && f(th)
    ensures var p := OnePage(table, f, limit, after);
            && (p.next.Some? && Follows(p.next, th) ==> Follows(after, th))
            && Times(th.id, p.threads) == if Follows(after, th) && (p.next.None? || !Follows(p.next, th)) then 1 else 0
  {
    var all, p := Listing(table, f, after), OnePage(table, f, limit, after);
    OnePageIs(table, f, limit, after);
    ListingIs(table, f, after);
    forall x | x in p.threads && x.id == th.id ensures x == th { assert x in all; }
    TimesOfSorted(th, p.threads);
    if |all| > limit && after.Some? && Follows(p.next, th) {
      assert all[limit - 1] in all;
      PrecedesIsTransitive(after.value, p.next.value, KeyOf(th));
    }
    if th in all { OnFirstPage(all, limit, th); } else { assert th !in p.threads; }
  }

  lemma {:induction false} FromHereOn(tables: seq<seq<Thread>>, f: Filter, limit: nat, after: Option<Key>, th: Thread)
    requires limit >= 1 && forall t :: t in tables ==> DistinctIds(t) && th in t && f(th)
    requires Complete(Walk(tables, f, limit, after))
    ensures Times(th.id, Shown(Walk(tables, f, limit, after))) == if Follows(after, th) then 1 else 0
  {
    var pages := Walk(tables, f, limit, after);
    var p := OnePage(tables[0], f, limit, after);
    assert tables[0] in tables;
    OnOnePage(tables[0], f, limit, after, th);
    assert Shown(pages) == p.threads + Shown(pages[1..]);
    TimesAppend(th.id, p.threads, Shown(pages[1..]));
    if p.next.Some? {
      var more := Walk(tables[1..], f, limit, p.next);
      assert pages[1..] == more;
      assert pages[|pages| - 1] == if more == [] then p else more[|more| - 1];
      FromHereOn(tables[1..], f, limit, p.next, th);
    } else {
      assert pages == [p] && pages[1..] == [];
    }
  }

  // ---------------------------------------------------------------- the endpoint: the key travels as a cursor

  datatype Response = Response(threads: seq<Thread>, hasMore: bool, nextCursor: Option<string>)

  /** What the cursor text of a request means. */
  function Start(read: Cursor.Reader, cursor: string): Option<Key> { Cursor.Decode(read, Take(cursor, Cursor.MAX_CURSOR)) }

  /** listThreads */
  function ListThreads(read: Cursor.Reader, table: seq<Thread>, f: Filter, limit: nat, cursor: string): Response {
    var p := OnePage(table, f, limit, Start(read, cursor));
    Response(p.threads, p.next.Some?, if p.next.Some? then Some(Cursor.Encode(p.next.value)) else None)
  }

  /** A client that follows next_cursor. */
  function Traverse(read: Cursor.Reader, tables: seq<seq<Thread>>, f: Filter, limit: nat, cursor: string): seq<Response> {
    if tables == [] then []
    else
      var r := ListThreads(read, tables[0], f, limit, cursor);
      [r] + if r.nextCursor.None? then [] else Traverse(read, tables[1..], f, limit, r.nextCursor.value)
  }

  function PageOf(read: Cursor.Reader, r: Response): Page { Page(r.threads, if r.nextCursor.Some? then Start(read, r.nextCursor.value) else None) }

  function PagesOf(read: Cursor.Reader, rs: seq<Response>): seq<Page> { if rs == [] then [] else [PageOf(read, rs[0])] + PagesOf(read, rs[1..]) }

  /** The thread's key survives the trip through the cursor. */
  predicate CursorSafe(th: Thread) {
    Cursor.IsTimestamp(th.last) && Cursor.IsThreadId(th.id) && |Cursor.Encode(KeyOf(th))| <= Cursor.MAX_CURSOR
  }

  predicate Proper(table: seq<Thread>) { DistinctIds(table) && forall th :: th in table ==> CursorSafe(th) }

  /** Every thread the system makes is such: an ISO timestamp and an id of the accepted form. */
  lemma UsualThreadsAreCursorSafe(th: Thread)
    requires Cursor.IsTimestamp(th.last) && |th.last| == 24 && Cursor.AllSimple(th.last) && Cursor.IsThreadId(th.id)
    ensures CursorSafe(th)
  {
    Cursor.ThreadIdIsSimple(th.id);
    Cursor.CursorLength(KeyOf(th));
  }

  lemma CursorSurvives(read: Cursor.Reader, th: Thread)
    requires Cursor.Agrees(read) && CursorSafe(th)
    ensures Start(read, Cursor.Encode(KeyOf(th))) == Some(KeyOf(th))
  {
    Cursor.DecodeEncode(read, KeyOf(th));
  }

  lemma NextIsListed(table: seq<Thread>, f: Filter, limit: nat, after: Option<Key>)
    requires DistinctIds(table) && limit >= 1 && OnePage(table, f, limit, after).next.Some?
    ensures exists th :: th in table && OnePage(table, f, limit, after).next == Some(KeyOf(th))
  {
    var all := Listing(table, f, after);
    OnePageIs(table, f, limit, after);
    ListingIs(table, f, after);
    assert all[limit - 1] in all;
  }

  lemma ResponseIsPage(read: Cursor.Reader, table: seq<Thread>, f: Filter, limit: nat, cursor: string)
    requires Cursor.Agrees(read) && Proper(table) && limit >= 1
    ensures PageOf(read, ListThreads(read, table, f, limit, cursor)) == OnePage(table, f, limit, Start(read, cursor))
  {
    var p := OnePage(table, f, limit, Start(read, cursor));
    if p.next.Some? {
      NextIsListed(table, f, limit, Start(read, cursor));
      var th :| th in table && p.next == Some(KeyOf(th));
      CursorSurvives(read, th);
    }
  }

  /** The texts a client passes around carry exactly the keys. */
  lemma {:induction false} TraverseIsWalk(read: Cursor.Reader, tables: seq<seq<Thread>>, f: Filter, limit: nat, cursor: string)
    requires Cursor.Agrees(read) && limit >= 1 && forall t :: t in tables ==> Proper(t)
    ensures PagesOf(read, Traverse(read, tables, f, limit, cursor)) == Walk(tables, f, limit, Start(read, cursor))
  {
    if tables != [] {
      var rs := Traverse(read, tables, f, limit, cursor);
      assert tables[0] in tables;
      ResponseIsPage(read, tables[0], f, limit, cursor);
      if rs[0].nextCursor.Some? {
        TraverseIsWalk(read, tables[1..], f, limit, rs[0].nextCursor.value);
        assert rs[1..] == Traverse(read, tables[1..], f, limit, rs[0].nextCursor.value);
      } else {
        assert rs[1..] == [];
      }
    }
  }

  lemma {:induction false} PagesOfLength(read: Cursor.Reader, rs: seq<Response>)
    ensures |PagesOf(read, rs)| == |rs|
  {
    if rs != [] { PagesOfLength(read, rs[1..]); }
  }

  /** The later one was active earlier, or at the same time and has the smaller id. */
  predicate IsOlder(later: Thread, th: Thread) { Lex.Less(later.last, th.last) || (later.last == th.last && Lex.Less(later.id, th.id)) }

  /** All matching threads behind the cursor, newest first. */
  ghost predicate AreAllBehind(all: seq<Thread>, table: seq<Thread>, f: Filter, start: Option<Key>) {
    && (forall i, j :: 0 <= i < j < |all| ==> IsOlder(all[j], all[i]))
    && (forall th :: th in all <==> (th in table && f(th) && (start.Some? ==> IsOlder(th, Thread(start.value.t, start.value.i, 0)))))
  }

  /** The first `limit` of them; it is said that there are more if and only if there are, and only then there is a cursor,
      which stands for the last thread on the page. */
  predicate ShowsFirst(read: Cursor.Reader, r: Response, all: seq<Thread>, limit: nat)
    requires limit >= 1
  {
    && r.threads == (if |all| > limit then all[..limit] else all)
    && (r.hasMore <==> |all| > limit) && (r.nextCursor.Some? <==> r.hasMore)
    && (r.hasMore ==> Start(read, r.nextCursor.value) == Some(KeyOf(all[limit - 1])))
  }

  lemma ListingIsBehind(table: seq<Thread>, f: Filter, start: Option<Key>)
    requires DistinctIds(table)
    ensures AreAllBehind(Listing(table, f, start), table, f, start)
  {
    var all := Listing(table, f, start);
    ListingIs(table, f, start);
    forall i, j | 0 <= i < j < |all| ensures IsOlder(all[j], all[i]) { assert Precedes(KeyOf(all[i]), KeyOf(all[j])); }
  }

  lemma PageShowsFirst(read: Cursor.Reader, table: seq<Thread>, f: Filter, limit: nat, cursor: string)
    requires Cursor.Agrees(read) && Proper(table) && limit >= 1
    ensures ShowsFirst(read, ListThreads(read, table, f, limit, cursor), Listing(table, f, Start(read, cursor)), limit)
  {
    var start := Start(read, cursor);
    var all := Listing(table, f, start);
    OnePageIs(table, f, limit, start);
    ListingIs(table, f, start);
    if |all| > limit {
      assert all[limit - 1] in all;
      CursorSurvives(read, all[limit - 1]);
    }
  }

  /** One answer of the endpoint. */
  lemma AnswerIsFirstPage(read: Cursor.Reader, table: seq<Thread>, f: Filter, limit: nat, cursor: string)
    requires Cursor.Agrees(read) && Proper(table) && limit >= 1
    ensures exists all :: AreAllBehind(all, table, f, Start(read, cursor)) && ShowsFirst(read, ListThreads(read, table, f, limit, cursor), all, limit)
  {
    ListingIsBehind(table, f, Start(read, cursor));
    PageShowsFirst(read, table, f, limit, cursor);
  }

  // ---------------------------------------------------------------- the theorems

  /** A table that does not change is shown exactly once, in descending order, in max(1, ceil(n / limit)) pages. */
  lemma PagesCoverList(read: Cursor.Reader, table: seq<Thread>, f: Filter, limit: nat, requests: nat)
    requires Cursor.Agrees(read) && Proper(table) && limit >= 1 && requests >= PageCount(|Listing(table, f, None)|, limit)
    ensures var all, rs := Listing(table, f, None), Traverse(read, Same(table, requests), f, limit, "");
            && Shown(PagesOf(read, rs)) == all && |rs| == PageCount(|all|, limit)
            && Sorted(all) && (forall th :: th in all <==> th in table && f(th))
  {
    Cursor.DecodeEmpty(read);
    TraverseIsWalk(read, Same(table, requests), f, limit, "");
    PagesOfLength(read, Traverse(read, Same(table, requests), f, limit, ""));
    StaticWalk(table, f, limit, None, requests);
    ListingIs(table, f, None);
  }

  /** Whatever happens to other threads between the pages, a matching thread that is not changed is shown exactly once
      by a traversal that reaches the last page. */
  lemma UnchangedThreadIsShownOnce(read: Cursor.Reader, tables: seq<seq<Thread>>, f: Filter, limit: nat, th: Thread)
    requires Cursor.Agrees(read) && limit >= 1 && forall t :: t in tables ==> Proper(t) && th in t && f(th)
    ensures var pages := PagesOf(read, Traverse(read, tables, f, limit, "")); Complete(pages) ==> Times(th.id, Shown(pages)) == 1
  {
    Cursor.DecodeEmpty(read);
    TraverseIsWalk(read, tables, f, limit, "");
    if Complete(Walk(tables, f, limit, None)) { FromHereOn(tables, f, limit, None, th); }
  }

  /** Why the keys must survive the cursor: a page that ends in one that does not leads back to the first page. */
  lemma LostKeyRestarts(read: Cursor.Reader, table: seq<Thread>, f: Filter, limit: nat, th: Thread)
    requires Cursor.Agrees(read) && |Cursor.Encode(KeyOf(th))| <= Cursor.MAX_CURSOR && !(Cursor.IsTimestamp(th.last) && Cursor.IsThreadId(th.id))
    ensures ListThreads(read, table, f, limit, Cursor.Encode(KeyOf(th))) == ListThreads(read, table, f, limit, "")
  {
    Cursor.DecodeEncode(read, KeyOf(th));
    Cursor.DecodeEmpty(read);
  }
}
