/** Message rows and the order in which every history query returns them. */
module History {
  import opened UserPair
  import Sorting

  type Time = int

  type ChatId = nat

  datatype Row = Row(id: nat, chat: ChatId, sender: UserId, createdAt: Time)

  /** `order_by("-created_at", "-id")`: the newest row first. */
  predicate Newer(a: Row, b: Row) {
    a.createdAt > b.createdAt || (a.createdAt == b.createdAt && a.id >= b.id)
  }

  ghost predicate UniqueIds(table: seq<Row>) {
    forall i, j | 0 <= i < j < |table| :: table[i].id != table[j].id
  }

  function InChat(table: seq<Row>, chat: ChatId): (r: seq<Row>)
    ensures forall x :: x in r <==> x in table && x.chat == chat
    ensures multiset(r) <= multiset(table)
  {
    if table == [] then []
    else
      assert table == [table[0]] + table[1..];
      (if table[0].chat == chat then [table[0]] else []) + InChat(table[1..], chat)
  }

  function NewestFirst(table: seq<Row>, chat: ChatId): (r: seq<Row>)
  {
    Sorting.Sort(InChat(table, chat), Newer)
  }

  lemma NewerIsTotal()
    ensures Sorting.TotalPreorder(Newer)
  {
  }

  lemma NewestFirstIsSorted(table: seq<Row>, chat: ChatId)
    ensures Sorting.SortedBy(NewestFirst(table, chat), Newer)
    ensures forall x :: x in NewestFirst(table, chat) <==> x in table && x.chat == chat
    ensures |NewestFirst(table, chat)| == |InChat(table, chat)|
  {
    NewerIsTotal();
    Sorting.SortSorted(InChat(table, chat), Newer);
    Sorting.SameElements(NewestFirst(table, chat), InChat(table, chat));
  }

  lemma UniqueIdsOfRows(table: seq<Row>, x: Row, y: Row)
    requires UniqueIds(table) && x in table && y in table && x.id == y.id
    ensures x == y
  {
    var i :| 0 <= i < |table| && table[i] == x;
    var j :| 0 <= j < |table| && table[j] == y;
    assert !(i < j) && !(j < i);
  }

  /** Ids being unique, the ordered query has one possible result, however the database sorts. */
  lemma OrderedQueryIsDetermined(table: seq<Row>, chat: ChatId, result: seq<Row>)
    requires UniqueIds(table)
    requires multiset(result) == multiset(InChat(table, chat)) && Sorting.SortedBy(result, Newer)
    ensures result == NewestFirst(table, chat)
  {
    NewerIsTotal();
    NewestFirstIsSorted(table, chat);
    var rows := NewestFirst(table, chat);
    forall x, y | x in rows && y in rows && Newer(x, y) && Newer(y, x) ensures x == y {
      UniqueIdsOfRows(table, x, y);
    }
    Sorting.SortedUnique(rows, result, Newer);
  }
}

/** Page windows, page queries and the walk a client makes over `next_cursor`. */
module Paging {
  import opened Wrappers
  import opened History
  import Cursor
  import Decimal
  import Sorting

  datatype Window = Window(offset: nat, limit: nat)

  datatype WindowError = InvalidLimit | InvalidCursor

  datatype Page<T> = Page(items: seq<T>, nextCursor: Option<string>)

  function GetPageWindow(rawLimit: Option<string>, rawCursor: Option<string>, defaultLimit: int, maxLimit: nat)
      : (r: Result<Window, WindowError>)
    ensures r.Ok? ==> r.value.limit <= maxLimit
  {
    var parsed := if rawLimit == None then Some(defaultLimit) else Decimal.PythonInt(rawLimit.value);
    if parsed.None? || parsed.value <= 0 then Err(InvalidLimit)
    else
      var limit := if parsed.value <= maxLimit then parsed.value else maxLimit;
      match Cursor.DecodeCursor(rawCursor)
      case Err(_) => Err(InvalidCursor)
      case Ok(offset) => Ok(Window(offset, limit))
  }

  function Reverse<T>(s: seq<T>): (r: seq<T>)
    ensures |r| == |s| && forall i | 0 <= i < |s| :: r[i] == s[|s| - 1 - i]
  {
    seq(|s|, i requires 0 <= i < |s| => s[|s| - 1 - i])
  }

  /** Python's slice `s[lo:hi]`, which clamps both ends. */
  function Slice<T>(s: seq<T>, lo: nat, hi: nat): (r: seq<T>)
    requires lo <= hi
  {
    if lo >= |s| then [] else if hi >= |s| then s[lo..] else s[lo..hi]
  }

  /** One page of rows that are kept newest first: the page itself is chronological. */
  function GetPage<T>(rows: seq<T>, window: Window): (r: Page<T>)
  {
    var fetched := Slice(rows, window.offset, window.offset + window.limit + 1);
    var hasNext := |fetched| > window.limit;
    var items := Reverse(Slice(fetched, 0, window.limit));
    Page(items, if hasNext then Cursor.EncodeCursor(Some(window.offset + window.limit)) else None)
  }

  /** The message list: raw query parameters in, a page or an error out. */
  function ListPage<T>(
    rows: seq<T>, rawLimit: Option<string>, rawCursor: Option<string>): (r: Result<Page<T>, WindowError>)
  {
    match GetPageWindow(rawLimit, rawCursor, 50, 100)
    case Err(error) => Err(error)
    case Ok(window) => Ok(GetPage(rows, window))
  }

  /** The raw limits a client sends, one per page, are such that the server accepts them. */
  ghost predicate Acceptable(limits: nat -> Option<string>) {
    forall k: nat :: GetPageWindow(limits(k), None, 50, 100).Ok?
  }

  function LimitOf(raw: Option<string>): (limit: nat)
    requires GetPageWindow(raw, None, 50, 100).Ok?
    ensures 0 < limit <= 100
  {
    GetPageWindow(raw, None, 50, 100).value.limit
  }

  /** What the server answers to request `k` of a client, given the cursor that comes with it. */
  type Server<!T> = (nat, Option<string>) -> Result<Page<T>, WindowError>

  /** How a cursor text is read. */
  type Reader = Option<string> -> Result<nat, Cursor.CursorError>

  /** The page at `offset`, with a cursor that reads as the next offset if there are rows left. */
  ghost predicate IsPageAt<T>(
    answer: Result<Page<T>, WindowError>, rows: seq<T>, offset: nat, limit: nat, reader: Reader)
  {
    && answer.Ok?
    && answer.value.items == Reverse(Slice(rows, offset, offset + limit))
    && (answer.value.nextCursor != None <==> offset + limit < |rows|)
    && (answer.value.nextCursor != None ==> reader(answer.value.nextCursor) == Ok(offset + limit))
  }

  ghost predicate PagesThrough<T>(server: Server<T>, rows: seq<T>, reader: Reader, limits: nat -> nat) {
    && (forall k: nat :: limits(k) > 0)
    && forall k: nat, cursor {:trigger server(k, cursor)} | reader(cursor).Ok? ::
         IsPageAt(server(k, cursor), rows, reader(cursor).value, limits(k), reader)
  }

  /** A page in front of the pages received after it. */
  function Before<T>(page: seq<T>, rest: seq<seq<T>>): (pages: seq<seq<T>>)
    ensures |pages| == |rest| + 1
  {
    [page] + rest
  }

  /** The pages a client receives when it follows `next_cursor` until there is none. */
  ghost function Walk<T>(
    server: Server<T>, rows: seq<T>, reader: Reader, limits: nat -> nat, cursor: Option<string>, k: nat)
      : (pages: seq<seq<T>>)
    requires PagesThrough(server, rows, reader, limits) && reader(cursor).Ok?
    decreases |rows| - reader(cursor).value
  {
    var page := server(k, cursor).value;
    if page.nextCursor != None then Before(page.items, Walk(server, rows, reader, limits, page.nextCursor, k + 1))
    else [page.items]
  }

  /** The client puts each older page in front of what it already shows. */
  function Shown<T>(pages: seq<seq<T>>): (r: seq<T>) {
    if pages == [] then [] else Shown(pages[1..]) + pages[0]
  }

  /** The same walk over plain offsets and limits, without the cursor text. */
  function OffsetWalk<T>(rows: seq<T>, offset: nat, limits: nat -> nat, k: nat): (pages: seq<seq<T>>)
    requires forall i: nat :: limits(i) > 0
    decreases |rows| - offset
  {
    var next := offset + limits(k);
    var page := Reverse(Slice(rows, offset, next));
    if next < |rows| then Before(page, OffsetWalk(rows, next, limits, k + 1)) else [page]
  }

  lemma PageAt<T>(rows: seq<T>, window: Window)
    requires window.limit > 0
    ensures GetPage(rows, window).items == Reverse(Slice(rows, window.offset, window.offset + window.limit))
    ensures GetPage(rows, window).nextCursor
         == if window.offset + window.limit < |rows|
           then Cursor.EncodeCursor(Some(window.offset + window.limit)) else None
  {
    var fetched := Slice(rows, window.offset, window.offset + window.limit + 1);
    assert Slice(fetched, 0, window.limit) == Slice(rows, window.offset, window.offset + window.limit);
  }

  /** The limit does not depend on the cursor. */
  lemma WindowAt(raw: Option<string>, cursor: Option<string>)
    ensures GetPageWindow(raw, None, 50, 100).Ok? && Cursor.DecodeCursor(cursor).Ok? ==>
      GetPageWindow(raw, cursor, 50, 100) == Ok(Window(Cursor.DecodeCursor(cursor).value, LimitOf(raw)))
  {
  }

  function ServerOf<T>(rows: seq<T>, limits: nat -> Option<string>): (server: Server<T>) {
    (k: nat, cursor: Option<string>) => ListPage(rows, limits(k), cursor)
  }

  lemma GetPageIsPage<T>(rows: seq<T>, offset: nat, limit: nat)
    requires limit > 0
    ensures IsPageAt(Ok(GetPage(rows, Window(offset, limit))), rows, offset, limit, Cursor.DecodeCursor)
  {
    PageAt(rows, Window(offset, limit));
    Cursor.CursorRoundTrip(offset + limit);
  }

  lemma ListPageIsPage<T>(rows: seq<T>, raw: Option<string>, cursor: Option<string>, limit: nat, offset: nat)
    requires GetPageWindow(raw, None, 50, 100).Ok? && limit == LimitOf(raw)
    requires Cursor.DecodeCursor(cursor) == Ok(offset)
    ensures ListPage(rows, raw, cursor) == Ok(GetPage(rows, Window(offset, limit)))
  {
    WindowAt(raw, cursor);
  }

  /** The message list pages through its rows: what it hands out as a cursor it reads back as the next offset. */
  lemma ServerPagesThrough<T>(rows: seq<T>, limits: nat -> Option<string>, plain: nat -> nat)
    requires Acceptable(limits) && forall k: nat :: plain(k) == LimitOf(limits(k))
    ensures PagesThrough(ServerOf(rows, limits), rows, Cursor.DecodeCursor, plain)
  {
    forall k: nat, cursor | Cursor.DecodeCursor(cursor).Ok?
      ensures IsPageAt(
        ServerOf(rows, limits)(k, cursor), rows, Cursor.DecodeCursor(cursor).value, plain(k), Cursor.DecodeCursor)
    {
      assert GetPageWindow(limits(k), None, 50, 100).Ok?;
      ListPageIsPage(rows, limits(k), cursor, plain(k), Cursor.DecodeCursor(cursor).value);
      GetPageIsPage(rows, Cursor.DecodeCursor(cursor).value, plain(k));
    }
  }

  /** Travelling as opaque text changes nothing: the walk over cursors is the walk over offsets. */
  lemma {:induction false} CursorWalkIsOffsetWalk<T>(
    server: Server<T>, rows: seq<T>, reader: Reader, limits: nat -> nat, cursor: Option<string>, k: nat)
    requires PagesThrough(server, rows, reader, limits) && reader(cursor).Ok?
    ensures Walk(server, rows, reader, limits, cursor, k) == OffsetWalk(rows, reader(cursor).value, limits, k)
    decreases |rows| - reader(cursor).value
  {
    var offset, page := reader(cursor).value, server(k, cursor).value;
    assert IsPageAt(server(k, cursor), rows, offset, limits(k), reader);
    if page.nextCursor != None {
      CursorWalkIsOffsetWalk(server, rows, reader, limits, page.nextCursor, k + 1);
    }
  }

  lemma ReverseAppend<T>(a: seq<T>, b: seq<T>)
    ensures Reverse(a + b) == Reverse(b) + Reverse(a)
  {
    forall i | 0 <= i < |a| + |b| ensures Reverse(a + b)[i] == (Reverse(b) + Reverse(a))[i] {
      assert (a + b)[|a| + |b| - 1 - i] == if i < |b| then b[|b| - 1 - i] else a[|a| + |b| - 1 - i];
    }
  }

  /** Putting one page in front of the pages before it. */
  lemma OnePageMore<T>(rows: seq<T>, offset: nat, next: nat, older: seq<seq<T>>)
    requires offset <= next <= |rows| && Shown(older) == Reverse(rows[next..])
    ensures Shown(Before(Reverse(rows[offset..next]), older)) == Reverse(rows[offset..])
  {
    var page := rows[offset..next];
    assert Before(Reverse(page), older)[1..] == older;
    ReverseAppend(page, rows[next..]);
    assert rows[offset..] == page + rows[next..];
  }

  lemma LastPage<T>(rows: seq<T>, offset: nat, next: nat)
    requires offset <= |rows| <= next
    ensures Shown([Reverse(Slice(rows, offset, next))]) == Reverse(rows[offset..])
  {
    assert Slice(rows, offset, next) == rows[offset..];
    assert [Reverse(rows[offset..])][1..] == [];
  }

  lemma {:induction false} WalkRebuilds<T>(rows: seq<T>, offset: nat, limits: nat -> nat, k: nat)
    requires forall i: nat :: limits(i) > 0
    requires offset <= |rows|
    ensures Shown(OffsetWalk(rows, offset, limits, k)) == Reverse(rows[offset..])
    decreases |rows| - offset
  {
    var next := offset + limits(k);
    if next < |rows| {
      WalkRebuilds(rows, next, limits, k + 1);
      OnePageMore(rows, offset, next, OffsetWalk(rows, next, limits, k + 1));
    } else {
      LastPage(rows, offset, next);
    }
  }

  ghost predicate Chronological(page: seq<Row>) {
    forall i, j | 0 <= i < j < |page| :: Newer(page[j], page[i])
  }

  ghost predicate AllChronological(pages: seq<seq<Row>>) {
    forall i | 0 <= i < |pages| :: Chronological(pages[i])
  }

  lemma PartsAreChronological(a: seq<Row>, b: seq<Row>)
    requires Chronological(a + b)
    ensures Chronological(a) && Chronological(b)
  {
    assert forall i | 0 <= i < |a| :: (a + b)[i] == a[i];
    assert forall i | 0 <= i < |b| :: (a + b)[|a| + i] == b[i];
  }

  /** What is shown in order was received in ordered pages. */
  lemma {:induction false} PagesAreChronological(pages: seq<seq<Row>>)
    requires Chronological(Shown(pages))
    ensures AllChronological(pages)
  {
    if pages != [] {
      PartsAreChronological(Shown(pages[1..]), pages[0]);
      PagesAreChronological(pages[1..]);
      forall i | 0 <= i < |pages| ensures Chronological(pages[i]) {
        assert i > 0 ==> pages[i] == pages[1..][i - 1];
      }
    }
  }

  lemma ReverseIsChronological(rows: seq<Row>)
    requires Sorting.SortedBy(rows, Newer)
    ensures Chronological(Reverse(rows))
  {
  }

  /** `q == ceil(n / d)`, without division. */
  predicate IsCeiling(q: int, n: nat, d: nat) {
    (q - 1) * d < n <= q * d
  }

  lemma {:induction false} WalkLength<T>(rows: seq<T>, offset: nat, limits: nat -> nat, k: nat, limit: nat)
    requires limit > 0 && forall i: nat :: limits(i) == limit
    requires offset < |rows|
    ensures IsCeiling(|OffsetWalk(rows, offset, limits, k)|, |rows| - offset, limit)
    decreases |rows| - offset
  {
    if offset + limit < |rows| {
      WalkLength(rows, offset + limit, limits, k + 1, limit);
      var q := |OffsetWalk(rows, offset + limit, limits, k + 1)|;
      assert (q + 1) * limit == q * limit + limit && (q + 1 - 1) * limit == (q - 1) * limit + limit;
    }
  }

  lemma {:induction false} ReverseIsPermutation<T>(s: seq<T>)
    ensures multiset(Reverse(s)) == multiset(s)
  {
    if s != [] {
      ReverseIsPermutation(s[1..]);
      assert s == [s[0]] + s[1..] && Reverse(s) == Reverse(s[1..]) + [s[0]];
    }
  }

  ghost function TotalLimits(limits: nat -> Option<string>): (plain: nat -> nat)
    requires Acceptable(limits)
    ensures forall i: nat :: plain(i) == LimitOf(limits(i))
  {
    (i: nat) => if GetPageWindow(limits(i), None, 50, 100).Ok? then LimitOf(limits(i)) else 1
  }

  /** The pages a client gets that asks for a chat's history from the start, with these raw limits. */
  ghost function PagesOf(table: seq<Row>, chat: ChatId, limits: nat -> Option<string>): (pages: seq<seq<Row>>)
    requires Acceptable(limits)
  {
    var rows := NewestFirst(table, chat);
    ServerPagesThrough(rows, limits, TotalLimits(limits));
    Walk(ServerOf(rows, limits), rows, Cursor.DecodeCursor, TotalLimits(limits), None, 0)
  }

  lemma PagesAreOffsetWalk(table: seq<Row>, chat: ChatId, limits: nat -> Option<string>)
    requires Acceptable(limits)
    ensures forall i: nat :: TotalLimits(limits)(i) > 0
    ensures PagesOf(table, chat, limits) == OffsetWalk(NewestFirst(table, chat), 0, TotalLimits(limits), 0)
  {
    var rows := NewestFirst(table, chat);
    ServerPagesThrough(rows, limits, TotalLimits(limits));
    CursorWalkIsOffsetWalk(ServerOf(rows, limits), rows, Cursor.DecodeCursor, TotalLimits(limits), None, 0);
  }

  /**
   * Paging through a fixed history with any accepted limits shows every message of the chat exactly
   * once, oldest first, in chronological pages; an empty history gives one empty page.
   */
  lemma WalkShowsWholeHistory(table: seq<Row>, chat: ChatId, limits: nat -> Option<string>)
    requires Acceptable(limits)
    ensures var pages := PagesOf(table, chat, limits);
      && Shown(pages) == Reverse(NewestFirst(table, chat))
      && multiset(Shown(pages)) == multiset(InChat(table, chat))
      && Chronological(Shown(pages))
      && AllChronological(pages)
      && (InChat(table, chat) == [] ==> pages == [[]])
  {
    var rows, total := NewestFirst(table, chat), TotalLimits(limits);
    NewestFirstIsSorted(table, chat);
    PagesAreOffsetWalk(table, chat, limits);
    WalkRebuilds(rows, 0, total, 0);
    assert rows[0..] == rows;
    ReverseIsChronological(rows);
    PagesAreChronological(PagesOf(table, chat, limits));
    ReverseIsPermutation(rows);
  }

  /** With one limit throughout, a non-empty history of n messages takes exactly ceil(n / limit) pages. */
  lemma WalkTakesCeilingPages(table: seq<Row>, chat: ChatId, limits: nat -> Option<string>, limit: nat)
    requires Acceptable(limits) && forall i: nat :: LimitOf(limits(i)) == limit
    requires InChat(table, chat) != []
    ensures IsCeiling(|PagesOf(table, chat, limits)|, |InChat(table, chat)|, limit)
  {
    var rows, total := NewestFirst(table, chat), TotalLimits(limits);
    NewestFirstIsSorted(table, chat);
    PagesAreOffsetWalk(table, chat, limits);
    assert limit == total(0) > 0;
    WalkLength(rows, 0, total, 0, limit);
  }
}
