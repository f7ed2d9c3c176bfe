/** Page listings: by offset and by descending id (cached_db.go, user_repo.go). */
module Paging {
  import opened Users

  type int32 = x: int | -0x8000_0000 <= x < 0x8000_0000

  const DEFAULT_PAGE_SIZE: int32 := 10

  /** Go's int32 arithmetic keeps the low 32 bits. */
  function Wrap32(x: int): int32 {
    (x + 0x8000_0000) % 0x1_0000_0000 - 0x8000_0000
  }

  // -------- rows by descending id

  lemma {:induction false} GreatestExists(ids: set<int>)
    requires ids != {}
    ensures exists k :: k in ids && forall j | j in ids :: j <= k
  {
    if forall x :: x !in ids {
      assert false;
    }
    var x :| x in ids;
    if ids != {x} {
      GreatestExists(ids - {x});
      var y :| y in ids - {x} && forall j | j in ids - {x} :: j <= y;
      var greatest := if x < y then y else x;
      assert forall j | j in ids :: j == x || j in ids - {x};
      assert greatest in ids && forall j | j in ids :: j <= greatest;
    }
  }

  function Greatest(ids: set<int>): (k: int)
    requires ids != {}
    ensures k in ids && forall j | j in ids :: j <= k
  {
    GreatestExists(ids);
    var k :| k in ids && forall j | j in ids :: j <= k;
    k
  }

  /** `ORDER BY id DESC` over the rows of `ids`. */
  function Descending(t: Table, ids: set<int>): (rows: seq<User>)
    requires ids <= t.Keys
    ensures |rows| == |ids|
    decreases |ids|
  {
    if ids == {} then [] else [t[Greatest(ids)]] + Descending(t, ids - {Greatest(ids)})
  }

  function Below(ids: set<int>, bound: int): set<int> {
    set k | k in ids && k < bound
  }

  /** Ids of the live rows; with a positive bound, of those below it. */
  function LiveIds(t: Table, bound: int): set<int> {
    var ids := set k | k in t && !t[k].deleted;
    if bound > 0 then Below(ids, bound) else ids
  }

  function Listing(t: Table): seq<User> {
    Descending(t, LiveIds(t, 0))
  }

  ghost predicate KeyedById(t: Table) {
    forall k | k in t :: t[k].id == k
  }

  ghost predicate Decreasing(rows: seq<User>) {
    forall i, j | 0 <= i < j < |rows| :: rows[j].id < rows[i].id
  }

  /** The listing of a set of ids: each row once, the greatest id first. */
  lemma {:induction false} DescendingIs(t: Table, ids: set<int>)
    requires KeyedById(t) && ids <= t.Keys
    ensures Decreasing(Descending(t, ids))
    ensures forall u :: u in Descending(t, ids) <==> u.id in ids && t[u.id] == u
    decreases |ids|
  {
    if ids != {} {
      var top := Greatest(ids);
      var rest := Descending(t, ids - {top});
      DescendingIs(t, ids - {top});
      HeadFirst(t[top], rest);
      forall u ensures u in [t[top]] + rest <==> u.id in ids && t[u.id] == u {
        assert u in [t[top]] + rest <==> u == t[top] || u in rest;
      }
    }
  }

  lemma HeadFirst(head: User, rest: seq<User>)
    requires Decreasing(rest) && forall u | u in rest :: u.id < head.id
    ensures Decreasing([head] + rest)
  {
    assert forall i | 0 <= i < |rest| :: rest[i] in rest;
  }

  lemma BelowTop(t: Table, ids: set<int>)
    requires ids != {} && KeyedById(t) && ids <= t.Keys
    ensures Below(ids, Greatest(ids)) == ids - {Greatest(ids)}
    ensures Descending(t, ids)[0].id == Greatest(ids)
    ensures Descending(t, ids)[1..] == Descending(t, ids - {Greatest(ids)})
  {
  }

  lemma BelowWithout(ids: set<int>, top: int, bound: int)
    requires bound <= top
    ensures Below(ids, bound) == Below(ids - {top}, bound)
  {
  }

  /** The rows below the i-th listed id are the rest of the listing. */
  lemma {:induction false} DescendingBelow(t: Table, ids: set<int>, i: nat)
    requires KeyedById(t) && ids <= t.Keys && 0 < i <= |ids|
    ensures Descending(t, Below(ids, Descending(t, ids)[i - 1].id)) == Descending(t, ids)[i..]
    decreases |ids|
  {
    BelowTop(t, ids);
    var top := Greatest(ids);
    if i > 1 {
      var rest := Descending(t, ids)[1..];
      DescendingBelow(t, ids - {top}, i - 1);
      DescendingIs(t, ids - {top});
      var bound := rest[i - 2].id;
      assert rest[i - 2] in rest;
      BelowWithout(ids, top, bound);
      assert Descending(t, ids)[i..] == rest[i - 1..];
    }
  }

  // -------- the queries

  function Slice<T>(rows: seq<T>, offset: nat, count: nat): (page: seq<T>)
    ensures |page| <= count
  {
    if offset >= |rows| then []
    else if offset + count <= |rows| then rows[offset..offset + count]
    else rows[offset..]
  }

  function SizeOr(size: int32): int32 {
    if size <= 0 then DEFAULT_PAGE_SIZE else size
  }

  function PageOr(page: int32): int32 {
    if page <= 0 then 1 else page
  }

  /** The product, by counting. */
  function Times(a: nat, b: nat): nat {
    if a == 0 then 0 else Times(a - 1, b) + b
  }

  lemma {:induction false} TimesIsProduct(a: nat, b: nat)
    ensures Times(a, b) == a * b
  {
    if a > 0 {
      TimesIsProduct(a - 1, b);
    }
  }

  /** The rows before a page, without any wrap-around. */
  function Offset(page: int32, size: int32): nat {
    Times(PageOr(page) - 1, SizeOr(size))
  }

  /** `OFFSET` is left out of the statement unless it is positive. */
  function PageOf<T>(rows: seq<T>, page: int32, size: int32): seq<T> {
    var offset := Wrap32(Offset(page, size));
    Slice(rows, if offset > 0 then offset else 0, SizeOr(size))
  }

  /** `FindPageListByIdDesc` restricted to live rows. */
  function CursorPage(t: Table, lastId: int32, size: int32): seq<User> {
    Slice(Descending(t, LiveIds(t, lastId)), 0, SizeOr(size))
  }

  // -------- the repository methods

  datatype BizUser = BizUser(id: int, username: string, email: string, profile: Profile, version: int)

  /** Each field of a row goes to the field of that name, in the order of the rows. */
  ghost predicate Converted(result: seq<BizUser>, rows: seq<User>) {
    && |result| == |rows|
    && forall i | 0 <= i < |rows| ::
         && result[i].id == rows[i].id && result[i].username == rows[i].username && result[i].email == rows[i].email
         && result[i].profile == rows[i].profile && result[i].version == rows[i].version
  }

  function ToBizUser(u: User): BizUser {
    BizUser(u.id, u.username, u.email, u.profile, u.version)
  }

  method Convert(users: seq<User>) returns (result: seq<BizUser>)
    ensures Converted(result, users)
  {
    result := [];
    for i := 0 to |users|
      invariant Converted(result, users[..i])
    {
      result := result + [ToBizUser(users[i])];
    }
    assert users[..|users|] == users;
  }

  /** The number of live users, cut to int32, and then one page; the table may change between the two statements. */
  method ListUsers(counted: Table, listed: Table, page: int32, pageSize: int32) returns (result: seq<BizUser>, total: int32)
    ensures total == Wrap32(|Listing(counted)|) && (|Listing(counted)| < 0x8000_0000 ==> total == |Listing(counted)|)
    ensures var rows := PageOf(Listing(listed), if page <= 0 then 1 else page, if pageSize <= 0 then 10 else pageSize);
      && |result| == |rows|
      && forall i | 0 <= i < |result| ::
           && result[i].id == rows[i].id && result[i].username == rows[i].username && result[i].email == rows[i].email
           && result[i].profile == rows[i].profile && result[i].version == rows[i].version
  {
    var p, size := page, pageSize;
    if p <= 0 {
      p := 1;
    }
    if size <= 0 {
      size := 10;
    }
    total := Wrap32(|Listing(counted)|);
    result := Convert(PageOf(Listing(listed), p, size));
  }

  method ListUsersByIdDesc(t: Table, lastId: int32, pageSize: int32) returns (result: seq<BizUser>)
    ensures var rows := CursorPage(t, lastId, if pageSize <= 0 then 10 else pageSize);
      && |result| == |rows|
      && forall i | 0 <= i < |result| ::
           && result[i].id == rows[i].id && result[i].username == rows[i].username && result[i].email == rows[i].email
           && result[i].profile == rows[i].profile && result[i].version == rows[i].version
  {
    var size := pageSize;
    if size <= 0 {
      size := 10;
    }
    result := Convert(CursorPage(t, lastId, size));
  }

  // -------- offset pages

  /** The repository applies the same defaults again, which makes no difference. */
  lemma Defaults<T>(rows: seq<T>, t: Table, page: int32, size: int32, lastId: int32)
    ensures page <= 0 ==> PageOf(rows, page, size) == PageOf(rows, 1, size)
    ensures size <= 0 ==> PageOf(rows, page, size) == PageOf(rows, page, 10) && CursorPage(t, lastId, size) == CursorPage(t, lastId, 10)
    ensures size > 0 ==> |PageOf(rows, 1, size)| == (if |rows| < size then |rows| else size)
    ensures size > 0 && rows != [] ==> PageOf(rows, 1, size)[0] == rows[0]
  {
  }

  lemma SliceAt(rows: seq<User>, start: nat, size: nat, i: nat)
    ensures i < |Slice(rows, start, size)| <==> i < size && start + i < |rows|
    ensures i < |Slice(rows, start, size)| ==> Slice(rows, start, size)[i] == rows[start + i]
  {
  }

  lemma OffsetIs(page: int32, size: int32)
    requires page >= 1 && size >= 1
    ensures Offset(page, size) == (page - 1) * size
  {
    TimesIsProduct(page - 1, size);
  }

  /** A page in plain terms: its i-th user has (page - 1) * size + i users listed before it. */
  lemma PageIs(rows: seq<User>, page: int32, size: int32, i: nat, start: nat)
    requires page >= 1 && size >= 1 && start == (page - 1) * size && start < 0x8000_0000
    ensures i < |PageOf(rows, page, size)| <==> i < size && start + i < |rows|
    ensures i < |PageOf(rows, page, size)| ==> PageOf(rows, page, size)[i] == rows[start + i]
  {
    OffsetIs(page, size);
    WrapExactly(Offset(page, size));
    assert PageOf(rows, page, size) == Slice(rows, start, size);
    SliceAt(rows, start, size, i);
  }

  /** Two offsets show different rows of a long enough listing. */
  lemma OffsetsDiffer(right: nat, wrong: nat, size: nat)
    requires wrong < right && size > 0
    ensures exists rows: seq<User> :: Slice(rows, wrong, size) != Slice(rows, right, size)
  {
    var rows := seq(wrong + 1, _ => User(1, "", "", Profile("", "", "", 0), 0, false));
    assert |Slice(rows, wrong, size)| == 1 && Slice(rows, right, size) == [];
  }

  lemma WrapExactly(x: nat)
    ensures x < 0x8000_0000 ==> Wrap32(x) == x
    ensures x >= 0x8000_0000 ==> Wrap32(x) < x
  {
  }

  /** The wrapped offset differs from the true one by a multiple of 2 to the 32nd. */
  lemma WrapIs(x: int)
    ensures (Wrap32(x) - x) % 0x1_0000_0000 == 0
  {
  }

  /** A page whose offset has wrapped starts at the wrapped offset, or at the top if that is not positive. */
  lemma WrappedPage(rows: seq<User>, page: int32, size: int32, start: int32)
    requires page >= 1 && size >= 1 && (start - Offset(page, size)) % 0x1_0000_0000 == 0
    ensures PageOf(rows, page, size) == Slice(rows, if start > 0 then start else 0, size)
  {
    WrapIs(Offset(page, size));
    assert (Wrap32(Offset(page, size)) - start) % 0x1_0000_0000 == 0;
  }

  /** A page is the right slice for every listing exactly if its offset fits in 32 bits. */
  lemma PageExactly(page: int32, size: int32)
    requires page >= 1 && size >= 1
    ensures Offset(page, size) == (page - 1) * size
    ensures (forall rows: seq<User> :: PageOf(rows, page, size) == Slice(rows, Offset(page, size), size)) <==>
      Offset(page, size) < 0x8000_0000
  {
    var offset := Offset(page, size);
    OffsetIs(page, size);
    WrapExactly(offset);
    if offset >= 0x8000_0000 {
      var wrapped := Wrap32(offset);
      var start := if wrapped > 0 then wrapped else 0;
      OffsetsDiffer(offset, start, size);
      var rows: seq<User> :| Slice(rows, start, size) != Slice(rows, offset, size);
      assert PageOf(rows, page, size) == Slice(rows, start, size);
    }
  }

  /** The first n pages joined. */
  function FirstPages<T>(rows: seq<T>, size: int32, n: nat): seq<T>
    requires n < 0x8000_0000
  {
    if n == 0 then [] else FirstPages(rows, size, n - 1) + PageOf(rows, n, size)
  }

  /** Offset pages partition the listing: the first n pages joined are its first n * size rows. */
  lemma {:induction false} PagesPartition<T>(rows: seq<T>, size: int32, n: nat)
    requires size >= 1 && n < 0x8000_0000 && (n > 0 ==> Offset(n, size) < 0x8000_0000)
    ensures FirstPages(rows, size, n) == if Times(n, size) <= |rows| then rows[..Times(n, size)] else rows
  {
    if n > 0 {
      WrapExactly(Offset(n, size));
      PagesPartition(rows, size, n - 1);
    }
  }

  /** Enough pages give every live user once, highest id first, as many as the reported total. */
  lemma PagesComplete(t: Table, size: int32, n: nat)
    requires KeyedById(t) && size >= 1 && 0 < n < 0x8000_0000 && Offset(n, size) < 0x8000_0000
    requires |Listing(t)| <= Times(n, size)
    ensures FirstPages(Listing(t), size, n) == Listing(t) && Decreasing(Listing(t))
    ensures forall u :: u in Listing(t) <==> LiveIn(t, u.id) && t[u.id] == u
    ensures |Listing(t)| < 0x8000_0000 ==> |FirstPages(Listing(t), size, n)| == Wrap32(|Listing(t)|)
  {
    PagesPartition(Listing(t), size, n);
    DescendingIs(t, LiveIds(t, 0));
    WrapExactly(|Listing(t)|);
  }

  /** On a fixed table the cursor page after the i-th listed user is the slice from i on. */
  lemma CursorIsSlice(t: Table, i: nat, size: int32)
    requires KeyedById(t) && 0 < i <= |Listing(t)| && size >= 1
    requires 0 < Listing(t)[i - 1].id < 0x8000_0000
    ensures CursorPage(t, Listing(t)[i - 1].id, size) == Slice(Listing(t), i, size)
  {
    DescendingBelow(t, LiveIds(t, 0), i);
  }

  /** A last id below 1 is no cursor: the listing starts over. */
  lemma NonPositiveCursorRestarts(t: Table, lastId: int32, size: int32)
    requires lastId <= 0
    ensures CursorPage(t, lastId, size) == CursorPage(t, 0, size)
  {
    assert LiveIds(t, lastId) == LiveIds(t, 0);
  }

  lemma FirstPageIsNotLater(rows: seq<User>, i: nat, size: nat)
    requires Decreasing(rows) && 0 < i <= |rows| && size >= 1
    ensures Slice(rows, 0, size) != Slice(rows, i, size)
  {
    assert Slice(rows, 0, size)[0] == rows[0];
    if i < |rows| {
      assert Slice(rows, i, size)[0] == rows[i];
      assert rows[i].id < rows[0].id;
    }
  }

  /** The page after the i-th listed user is the slice from i on exactly if that user's id is positive. */
  lemma CursorIsSliceExactly(t: Table, i: nat, size: int32)
    requires KeyedById(t) && 0 < i <= |Listing(t)| && size >= 1
    requires -0x8000_0000 <= Listing(t)[i - 1].id < 0x8000_0000
    ensures CursorPage(t, Listing(t)[i - 1].id, size) == Slice(Listing(t), i, size) <==> Listing(t)[i - 1].id > 0
  {
    if Listing(t)[i - 1].id > 0 {
      CursorIsSlice(t, i, size);
    } else {
      NonPositiveCursorRestarts(t, Listing(t)[i - 1].id, size);
      DescendingIs(t, LiveIds(t, 0));
      FirstPageIsNotLater(Listing(t), i, size);
    }
  }

  /** So the cursor walk over a fixed table reads the same pages as the offsets do. */
  lemma CursorPageIsOffsetPage(t: Table, page: int32, size: int32)
    requires KeyedById(t) && page >= 2 && size >= 1 && 0 < Offset(page, size) < 0x8000_0000
    requires Offset(page, size) <= |Listing(t)| && 0 < Listing(t)[Offset(page, size) - 1].id < 0x8000_0000
    ensures CursorPage(t, Listing(t)[Offset(page, size) - 1].id, size) == PageOf(Listing(t), page, size)
  {
    WrapExactly(Offset(page, size));
    CursorIsSlice(t, Offset(page, size), size);
  }

  // -------- the cursor walk over a changing table

  /** Each page is read from the table of its moment, below the last id of the page before; an empty page ends the walk. */
  function Walk(tables: seq<Table>, lastId: int32, size: int32): seq<User>
    requires AllFit(tables)
    decreases |tables|
  {
    if tables == [] || CursorPage(tables[0], lastId, size) == [] then []
    else
      var page := CursorPage(tables[0], lastId, size);
      PageRows(tables[0], lastId, size);
      page + Walk(tables[1..], page[|page| - 1].id, size)
  }

  lemma WalkStep(tables: seq<Table>, lastId: int32, size: int32)
    requires tables != [] && AllFit(tables)
    requires CursorPage(tables[0], lastId, size) != []
    ensures var page := CursorPage(tables[0], lastId, size);
      var last := page[|page| - 1].id;
      0 < last < 0x8000_0000 && last in tables[0] && UnderCursor(last, lastId) &&
      Walk(tables, lastId, size) == page + Walk(tables[1..], last, size) &&
      (Ends(tables, lastId, size) <==> Ends(tables[1..], last, size))
  {
    PageRows(tables[0], lastId, size);
  }

  /** The walk has reached its empty page. */
  predicate Ends(tables: seq<Table>, lastId: int32, size: int32)
    requires AllFit(tables)
    decreases |tables|
  {
    tables != [] &&
    (CursorPage(tables[0], lastId, size) == [] ||
     (PageRows(tables[0], lastId, size);
      Ends(tables[1..], CursorPage(tables[0], lastId, size)[|CursorPage(tables[0], lastId, size)| - 1].id, size)))
  }

  /** Ids are positive, as automatic ones are, and fit the cursor's type. */
  predicate IdsFit(t: Table) {
    forall k | k in t :: t[k].id == k && 0 < k < 0x8000_0000
  }

  predicate AllFit(tables: seq<Table>) {
    forall t | t in tables :: IdsFit(t)
  }

  predicate UnderCursor(id: int, lastId: int) {
    lastId > 0 ==> id < lastId
  }

  lemma PagePrefix(t: Table, lastId: int32, size: int32)
    ensures var (rows, page) := (Descending(t, LiveIds(t, lastId)), CursorPage(t, lastId, size));
      |page| <= |rows| && page == rows[..|page|] && (page == [] ==> rows == [])
  {
  }

  /** A page holds live rows below the cursor in descending order, and skips none above its own last one. */
  lemma PageRows(t: Table, lastId: int32, size: int32)
    requires IdsFit(t)
    ensures var page := CursorPage(t, lastId, size);
      && Decreasing(page)
      && (forall u | u in page :: LiveIn(t, u.id) && t[u.id] == u && 0 < u.id < 0x8000_0000 && UnderCursor(u.id, lastId))
      && (page != [] ==> page[|page| - 1] in page)
  {
    DescendingIs(t, LiveIds(t, lastId));
    PagePrefix(t, lastId, size);
  }

  lemma PageSkipsNone(t: Table, lastId: int32, size: int32, id: int)
    requires IdsFit(t) && LiveIn(t, id) && UnderCursor(id, lastId)
    ensures var page := CursorPage(t, lastId, size);
      page != [] && (id >= page[|page| - 1].id ==> exists i :: 0 <= i < |page| && page[i].id == id)
  {
    var rows, page := Descending(t, LiveIds(t, lastId)), CursorPage(t, lastId, size);
    DescendingIs(t, LiveIds(t, lastId));
    PagePrefix(t, lastId, size);
    assert t[id] in rows;
    var i :| 0 <= i < |rows| && rows[i] == t[id];
    if i < |page| {
      assert page[i].id == id;
    }
  }

  /** The walk's ids strictly decrease, so nobody is returned twice. */
  lemma {:induction false} WalkDecreases(tables: seq<Table>, lastId: int32, size: int32)
    requires AllFit(tables)
    ensures Decreasing(Walk(tables, lastId, size))
    ensures forall u | u in Walk(tables, lastId, size) :: UnderCursor(u.id, lastId)
    decreases |tables|
  {
    if tables != [] && CursorPage(tables[0], lastId, size) != [] {
      var page := CursorPage(tables[0], lastId, size);
      PageRows(tables[0], lastId, size);
      var last := page[|page| - 1].id;
      WalkDecreases(tables[1..], last, size);
      JoinDecreasing(page, Walk(tables[1..], last, size));
    }
  }

  /** Each user of the walk was live in the table its page was read from. */
  lemma {:induction false} WalkWasLive(tables: seq<Table>, lastId: int32, size: int32, u: User)
    requires AllFit(tables)
    requires u in Walk(tables, lastId, size)
    ensures WasLive(tables, u)
    decreases |tables|
  {
    var page := CursorPage(tables[0], lastId, size);
    PageRows(tables[0], lastId, size);
    if u !in page {
      WalkWasLive(tables[1..], page[|page| - 1].id, size, u);
      var i :| 0 <= i < |tables[1..]| && LiveIn(tables[1..][i], u.id) && tables[1..][i][u.id] == u;
      assert tables[i + 1] == tables[1..][i];
    }
  }

  /** `u` was a live row of one of the tables. */
  ghost predicate WasLive(tables: seq<Table>, u: User) {
    exists i | 0 <= i < |tables| :: LiveIn(tables[i], u.id) && tables[i][u.id] == u
  }

  lemma JoinDecreasing(page: seq<User>, rest: seq<User>)
    requires page != [] && Decreasing(page) && Decreasing(rest)
    requires forall u | u in rest :: u.id < page[|page| - 1].id
    ensures Decreasing(page + rest)
  {
    assert forall i | 0 <= i < |rest| :: rest[i] in rest;
  }

  /** A walk that ends has returned every user that was live throughout, whatever else was created or deleted. */
  lemma {:induction false} WalkComplete(tables: seq<Table>, lastId: int32, size: int32, id: int)
    requires AllFit(tables) && forall t | t in tables :: LiveIn(t, id)
    requires Ends(tables, lastId, size) && UnderCursor(id, lastId)
    ensures exists i :: 0 <= i < |Walk(tables, lastId, size)| && Walk(tables, lastId, size)[i].id == id
    decreases |tables|
  {
    var page := CursorPage(tables[0], lastId, size);
    PageRows(tables[0], lastId, size);
    PageSkipsNone(tables[0], lastId, size, id);
    var last := page[|page| - 1].id;
    var walk := Walk(tables, lastId, size);
    if id >= last {
      var i :| 0 <= i < |page| && page[i].id == id;
      assert walk[i].id == id;
    } else {
      WalkComplete(tables[1..], last, size, id);
      var rest := Walk(tables[1..], last, size);
      var i :| 0 <= i < |rest| && rest[i].id == id;
      assert walk[|page| + i].id == id;
    }
  }

  /** The cursor itself bounds the number of pages left: from `lastId` at most that many reads reach the end. */
  lemma {:induction false} WalkEnds(tables: seq<Table>, lastId: int32, size: int32)
    requires AllFit(tables)
    requires 0 < lastId <= |tables|
    ensures Ends(tables, lastId, size)
    decreases |tables|
  {
    var page := CursorPage(tables[0], lastId, size);
    if page != [] {
      WalkStep(tables, lastId, size);
      WalkEnds(tables[1..], page[|page| - 1].id, size);
    }
  }

  /** From the start the walk ends too, bounded by the ids of the first table, and returns nobody twice. */
  lemma CursorWalkEnds(tables: seq<Table>, size: int32)
    requires AllFit(tables)
    requires tables != [] && forall k | k in tables[0] :: k < |tables|
    ensures Ends(tables, 0, size) && Decreasing(Walk(tables, 0, size))
  {
    WalkDecreases(tables, 0, size);
    if CursorPage(tables[0], 0, size) != [] {
      WalkStep(tables, 0, size);
      var page := CursorPage(tables[0], 0, size);
      WalkEnds(tables[1..], page[|page| - 1].id, size);
    }
  }

  /** Stable cursor walk: from the start, a walk that long returns every user live throughout exactly once. */
  lemma CursorWalkStable(tables: seq<Table>, size: int32, id: int)
    requires AllFit(tables) && forall t | t in tables :: LiveIn(t, id)
    requires tables != [] && forall k | k in tables[0] :: k < |tables|
    ensures Ends(tables, 0, size) && Decreasing(Walk(tables, 0, size))
    ensures exists i :: 0 <= i < |Walk(tables, 0, size)| && Walk(tables, 0, size)[i].id == id
  {
    CursorWalkEnds(tables, size);
    WalkComplete(tables, 0, size, id);
  }

  // -------- the cursor walk over a fixed table

  function Copies(t: Table, n: nat): (tables: seq<Table>)
    ensures |tables| == n && (IdsFit(t) ==> AllFit(tables))
  {
    if n == 0 then [] else [t] + Copies(t, n - 1)
  }

  /** The cursor that stands after the first `i` listed users. */
  function CursorAfter(t: Table, i: nat): (r: int32)
    requires IdsFit(t) && i <= |Listing(t)|
    ensures if i == 0 then r == 0 else 0 < r == Listing(t)[i - 1].id
  {
    DescendingIs(t, LiveIds(t, 0));
    assert i > 0 ==> Listing(t)[i - 1] in Listing(t);
    if i == 0 then 0 else Listing(t)[i - 1].id
  }

  lemma PageAfter(t: Table, i: nat, size: int32)
    requires IdsFit(t) && i <= |Listing(t)| && size >= 1
    ensures CursorPage(t, CursorAfter(t, i), size) == Slice(Listing(t), i, size)
  {
    if i > 0 {
      assert Listing(t)[i - 1].id == CursorAfter(t, i);
      CursorIsSlice(t, i, size);
    }
  }

  function NextStart(i: nat, size: nat, len: nat): nat {
    if i + size <= len then i + size else len
  }

  /** How far `n` pages from the i-th row on reach. */
  function Reach(i: nat, size: nat, n: nat, len: nat): (j: nat)
    requires i <= len
    ensures i <= j <= len
    decreases n
  {
    if n == 0 then i else Reach(NextStart(i, size, len), size, n - 1, len)
  }

  lemma {:induction false} ReachIs(i: nat, size: nat, n: nat, len: nat)
    requires i <= len
    ensures Reach(i, size, n, len) == if i + Times(n, size) <= len then i + Times(n, size) else len
    decreases n
  {
    if n > 0 {
      ReachIs(NextStart(i, size, len), size, n - 1, len);
    }
  }

  function FixedWalk(t: Table, i: nat, size: int32, n: nat): seq<User>
    requires IdsFit(t) && i <= |Listing(t)|
  {
    Walk(Copies(t, n), CursorAfter(t, i), size)
  }

  lemma SliceBetween<T>(rows: seq<T>, i: nat, size: nat)
    requires i < |rows| && size >= 1
    ensures var next := NextStart(i, size, |rows|);
      i < next && Slice(rows, i, size) == rows[i..next] && rows[i..next][next - i - 1] == rows[next - 1]
  {
  }

  lemma PageBetween(t: Table, i: nat, size: int32)
    requires IdsFit(t) && i < |Listing(t)| && size >= 1
    ensures var next := NextStart(i, size, |Listing(t)|);
      var page := CursorPage(t, CursorAfter(t, i), size);
      page == Listing(t)[i..next] && page != [] && page[|page| - 1].id == CursorAfter(t, next)
  {
    PageAfter(t, i, size);
    SliceBetween(Listing(t), i, size);
  }

  /** One page of the walk over a fixed table, and the rest of it. */
  lemma FixedWalkStep(t: Table, i: nat, size: int32, n: nat)
    requires IdsFit(t) && i < |Listing(t)| && size >= 1 && n > 0
    ensures var next := NextStart(i, size, |Listing(t)|);
      FixedWalk(t, i, size, n) == Listing(t)[i..next] + FixedWalk(t, next, size, n - 1)
  {
    PageBetween(t, i, size);
    assert Copies(t, n)[0] == t && Copies(t, n)[1..] == Copies(t, n - 1);
    WalkStep(Copies(t, n), CursorAfter(t, i), size);
  }

  lemma FixedWalkStops(t: Table, size: int32, n: nat)
    requires IdsFit(t) && size >= 1
    ensures FixedWalk(t, |Listing(t)|, size, n) == []
  {
    PageAfter(t, |Listing(t)|, size);
  }

  lemma PartsJoin<T>(rows: seq<T>, i: nat, j: nat, k: nat)
    requires i <= j <= k <= |rows|
    ensures rows[i..j] + rows[j..k] == rows[i..k]
  {
  }

  lemma WalkFromNext(t: Table, i: nat, size: int32, n: nat)
    requires IdsFit(t) && i < |Listing(t)| && size >= 1 && n > 0
    requires var next := NextStart(i, size, |Listing(t)|);
      FixedWalk(t, next, size, n - 1) == Listing(t)[next..Reach(next, size, n - 1, |Listing(t)|)]
    ensures FixedWalk(t, i, size, n) == Listing(t)[i..Reach(i, size, n, |Listing(t)|)]
  {
    var len := |Listing(t)|;
    var next := NextStart(i, size, len);
    FixedWalkStep(t, i, size, n);
    PartsJoin(Listing(t), i, next, Reach(next, size, n - 1, len));
  }

  lemma {:induction false} WalkFrom(t: Table, i: nat, size: int32, n: nat)
    requires IdsFit(t) && i <= |Listing(t)| && size >= 1
    ensures FixedWalk(t, i, size, n) == Listing(t)[i..Reach(i, size, n, |Listing(t)|)]
    decreases n
  {
    var len := |Listing(t)|;
    if i == len {
      FixedWalkStops(t, size, n);
    } else if n > 0 {
      WalkFrom(t, NextStart(i, size, len), size, n - 1);
      WalkFromNext(t, i, size, n);
    }
  }

  /**
   Over a fixed table the cursor walk and the offset pages return the same users in the same
   order: n steps of the walk are the first n pages joined, and enough of them the whole listing.
   */
  lemma CursorWalkIsOffsetWalk(t: Table, size: int32, n: nat)
    requires IdsFit(t) && size >= 1 && n < 0x8000_0000 && (n > 0 ==> Offset(n, size) < 0x8000_0000)
    ensures Walk(Copies(t, n), 0, size) == FirstPages(Listing(t), size, n)
    ensures |Listing(t)| <= Times(n, size) ==> Walk(Copies(t, n), 0, size) == Listing(t)
  {
    WalkFrom(t, 0, size, n);
    assert FixedWalk(t, 0, size, n) == Walk(Copies(t, n), 0, size);
    ReachIs(0, size, n, |Listing(t)|);
    PagesPartition(Listing(t), size, n);
  }
}
