/** The paged number list (internal/service/dno.go, ListNumbers). WHERE, ORDER BY, LIMIT and OFFSET are read the way
    SQLite reads them; rows with equal update times come in any order. */
module Paging {
  import opened Wrappers
  import opened Collections
  import opened NumberTable
  import opened Placeholders
  import opened QueryBuilders
  import opened Phone
  import opened Outcomes
  import opened QueryReading

  const MAX_INT := 0x7fff_ffff_ffff_ffff

  /** Go's 64-bit `int` arithmetic. */
  function Wrap64(n: int): int {
    (n + 0x8000_0000_0000_0000) % 0x1_0000_0000_0000_0000 - 0x8000_0000_0000_0000
  }

  /** LIMIT and OFFSET; SQLite takes a negative offset as none. */
  function Slice<T>(rows: seq<T>, limit: nat, offset: int): seq<T> {
    var start := Least(if offset < 0 then 0 else offset, |rows|);
    rows[start..Least(start + limit, |rows|)]
  }

  function PageOf<T>(rows: seq<T>, page: int, size: nat): seq<T> {
    Slice(rows, size, Wrap64((page - 1) * size))
  }

  function TotalPages(total: nat, size: nat): nat
    requires size >= 1
  {
    total / size + if total % size > 0 then 1 else 0
  }

  function EffectivePage(page: int): int { if page < 1 then 1 else page }

  function EffectiveSize(pageSize: int): (r: nat)
    ensures 1 <= r <= 100
  {
    if pageSize < 1 || pageSize > 100 then 25 else pageSize
  }

  datatype PageResponse<T> = PageResponse(data: seq<T>, total: nat, page: int, pageSize: nat, totalPages: nat)

  predicate ValidDataset(s: string) { s == "auto" || s == "subscriber" || s == "itg" || s == "tss_registry" }
  predicate ValidStatus(s: string) { s == "active" || s == "inactive" || s == "pending" }

  predicate ValidFilters(f: Filters) {
    && (f.dataset == "" || ValidDataset(f.dataset))
    && (f.status == "" || ValidStatus(f.status))
    && (f.channel == "" || ValidChannel(f.channel))
  }

  function ListError(f: Filters): Option<Error> {
    if f.dataset != "" && !ValidDataset(f.dataset) then Some(BadFilter)
    else if f.status != "" && !ValidStatus(f.status) then Some(BadFilter)
    else if f.channel != "" && !ValidChannel(f.channel) then Some(BadChannel)
    else None
  }

  lemma ListErrorIff(f: Filters)
    ensures ListError(f).None? <==> ValidFilters(f)
  {
  }

  /** The first bad filter refuses the list. */
  ghost predicate ListRefusal(f: Filters, e: Option<Error>) {
    e == if f.dataset !in {"", "auto", "subscriber", "itg", "tss_registry"} then Some(BadFilter)
         else if f.status !in {"", "active", "inactive", "pending"} then Some(BadFilter)
         else if f.channel !in {"", "voice", "text", "both"} then Some(BadChannel)
         else None
  }

  lemma ListErrorIs(f: Filters)
    ensures ListRefusal(f, ListError(f))
  {
  }

  lemma Effective(page: int, pageSize: int)
    ensures EffectivePage(page) == if page < 1 then 1 else page
    ensures EffectiveSize(pageSize) == if pageSize < 1 || pageSize > 100 then 25 else pageSize
  {
  }

  // ------------------------------------------------------- what is selected

  /** The WHERE clause: every filter that is set holds of the row. */
  predicate Passes(t: Table, k: Key, f: Filters) {
    && k in t
    && (f.org.Some? ==> t[k].orgId == f.org)
    && (f.dataset != "" ==> DatasetName(t[k].dataset) == f.dataset)
    && (f.status != "" ==> StatusName(t[k].status) == f.status)
    && (f.channel != "" ==> Covers(k.channel, f.channel))
    && (f.search != "" ==> Like(LikePattern(f.search), k.phone))
  }

  lemma {:induction false} PassesIff(t: Table, k: Key, f: Filters)
    ensures Passes(t, k, f) <==> k in t && Meets(t[k], k, f)
  {
    hide Like, Normalize;
  }

  /** The listing in the caller's terms: exactly the rows of the table that meet every set filter. */
  ghost predicate ListsExactly(t: Table, f: Filters, rows: seq<Key>) {
    && (forall k :: k in rows <==> k in t && Meets(t[k], k, f))
    && ('%' !in Normalize(f.search) && '_' !in Normalize(f.search) && f.search != "" ==>
          forall k :: k in rows <==>
                      k in t && Meets(t[k], k, f.(search := "")) && Contains(k.phone, Normalize(f.search)))
  }

  lemma ListsExactlyIs(t: Table, f: Filters, rows: seq<Key>)
    requires IsListing(t, f, rows)
    ensures ListsExactly(t, f, rows)
  {
    hide Passes, Like, Normalize, IsDataset, IsStatus, ChannelText, Contains;
    forall k ensures Passes(t, k, f) <==> k in t && Meets(t[k], k, f) {
      PassesIff(t, k, f);
    }
    if '%' !in Normalize(f.search) && '_' !in Normalize(f.search) {
      forall k: Key ensures Like("%" + Normalize(f.search) + "%", k.phone) <==> Contains(k.phone, Normalize(f.search)) {
        SearchFinds(Normalize(f.search), k.phone);
      }
    }
  }

  /** What the two queries, read as SQL, select is what the listing holds. */
  ghost predicate QueriesAgree(t: Table, rows: seq<Key>, count: Query, paged: Query, size: int, offset: int) {
    exists where ::
      AsksFor(count, paged, where, size, offset) && forall k :: k in rows <==> k in t && Selects(where, t[k], k)
  }

  lemma QueriesAgreeIs(t: Table, f: Filters, rows: seq<Key>, count: Query, paged: Query, size: int, offset: int)
    requires ListsExactly(t, f, rows)
    requires Means(count, TextOf(COUNT_SELECT) + WherePieces(f)) && Means(paged, PagePieces(f, size, offset))
    ensures QueriesAgree(t, rows, count, paged, size, offset)
  {
    hide Means, AsksFor, Selects, Meets, WherePieces, PagePieces, TextOf;
    AsksForIs(count, paged, f, size, offset);
    forall k | k in t ensures Selects(WherePieces(f), t[k], k) <==> Meets(t[k], k, f) {
      WhereSelectsIff(f, t[k], k);
    }
  }

  ghost predicate NewestFirst(t: Table, rows: seq<Key>) {
    && (forall i | 0 <= i < |rows| :: rows[i] in t)
    && forall i, j | 0 <= i < j < |rows| :: t[rows[i]].updatedAt >= t[rows[j]].updatedAt
  }

  /** What the engine may return without LIMIT and OFFSET: the selected rows, newest first, ties in any order. */
  ghost predicate IsListing(t: Table, f: Filters, rows: seq<Key>) {
    Distinct(rows) && NewestFirst(t, rows) && forall k :: k in rows <==> Passes(t, k, f)
  }

  lemma {:induction false} NewestExists(t: Table, rest: set<Key>) returns (k: Key)
    requires rest != {} && forall k :: k in rest ==> k in t
    ensures k in rest && forall k' :: k' in rest ==> t[k'].updatedAt <= t[k].updatedAt
    decreases rest
  {
    var x :| x in rest;
    k := x;
    if rest - {x} != {} {
      var y := NewestExists(t, rest - {x});
      if t[y].updatedAt > t[x].updatedAt { k := y; }
    }
  }

  /** The engine's SELECT with the filters and ORDER BY updated_at DESC. */
  method Select(t: Table, f: Filters) returns (rows: seq<Key>)
    ensures IsListing(t, f, rows)
  {
    hide Like, Passes;
    var rest := set k | k in t && Passes(t, k, f);
    OnlyRows(t, f);
    rows := [];
    while rest != {}
      invariant forall k :: k in rest || k in rows <==> Passes(t, k, f)
      invariant forall k :: k in rest ==> k in t && k !in rows
      invariant Distinct(rows) && NewestFirst(t, rows)
      invariant forall i, k | 0 <= i < |rows| && k in rest :: t[rows[i]].updatedAt >= t[k].updatedAt
    {
      ghost var newest := NewestExists(t, rest);
      var k :| k in rest && forall k' :: k' in rest ==> t[k'].updatedAt <= t[k].updatedAt;
      rows := rows + [k];
      rest := rest - {k};
    }
  }

  lemma OnlyRows(t: Table, f: Filters)
    ensures forall k :: Passes(t, k, f) ==> k in t
  {
  }

  // -------------------------------------------------------------- the method

  method ListNumbers(t: Table, f: Filters, pageArg: int, pageSizeArg: int)
    returns (r: Result<PageResponse<Key>>, count: Query, paged: Query, ghost selected: seq<Key>)
    requires -MAX_INT - 1 <= pageArg <= MAX_INT && -MAX_INT - 1 <= pageSizeArg <= MAX_INT
    ensures r.Failure? <==> !ValidFilters(f)
    ensures r.Failure? ==> ListError(f) == Some(r.error)
    ensures r.Success? ==> IsListing(t, f, selected)
    ensures r.Success? ==> ListedPage(selected, EffectivePage(pageArg), EffectiveSize(pageSizeArg), r.value)
    ensures ListRefusal(f, if r.Failure? then Some(r.error) else None)
    ensures r.Success? ==>
              && ListsExactly(t, f, selected) && PageShows(selected, pageArg, pageSizeArg, r.value)
              && QueriesAgree(t, selected, count, paged, r.value.pageSize,
                              Wrap64((r.value.page - 1) * r.value.pageSize))
    ensures r.Success? ==>
              && Means(count, TextOf(COUNT_SELECT) + WherePieces(f))
              && Means(paged, PagePieces(f, EffectiveSize(pageSizeArg),
                                         Wrap64((EffectivePage(pageArg) - 1) * EffectiveSize(pageSizeArg))))
  {
    hide *;
    count, paged, selected := Query("", []), Query("", []), [];
    var page, pageSize := pageArg, pageSizeArg;
    if page < 1 { page := 1; }
    if pageSize < 1 || pageSize > 100 { pageSize := 25; }
    Effective(pageArg, pageSizeArg);
    var e := ListError(f);
    ListErrorIff(f);
    ListErrorIs(f);
    if e.Some? { return Failure(e.value), count, paged, selected; }

    var offset := Wrap64((page - 1) * pageSize);
    count, paged := BuildList(f, pageSize, offset);
    var rows := Select(t, f);
    var data := Slice(rows, pageSize, offset);
    var totalPages := PageCount(|rows|, pageSize);
    r := Success(PageResponse(data, |rows|, page, pageSize, totalPages));
    ListedAs(rows, page, pageSize, r.value);
    ListsExactlyIs(t, f, rows);
    QueriesAgreeIs(t, f, rows, count, paged, pageSize, offset);
    PageShowsIs(rows, pageArg, pageSizeArg, r.value);
    selected := rows;
  }

  method PageCount(total: nat, pageSize: nat) returns (totalPages: nat)
    requires pageSize >= 1
    ensures totalPages == TotalPages(total, pageSize)
  {
    totalPages := total / pageSize;
    if total % pageSize > 0 { totalPages := totalPages + 1; }
  }

  /** The response for an effective page number and size. */
  predicate ListedPage<T(==)>(rows: seq<T>, page: int, size: nat, r: PageResponse<T>) {
    && 1 <= size <= 100 && 1 <= page && r.page == page && r.pageSize == size
    && r.data == PageOf(rows, page, size) && r.total == |rows| && r.totalPages == TotalPages(|rows|, size)
  }

  lemma ListedAs<T>(rows: seq<T>, page: int, size: nat, r: PageResponse<T>)
    requires 1 <= size <= 100 && 1 <= page
    requires r == PageResponse(Slice(rows, size, Wrap64((page - 1) * size)), |rows|, page, size,
                               TotalPages(|rows|, size))
    ensures ListedPage(rows, page, size, r)
  {
    hide Slice, Wrap64, TotalPages;
  }

  /** The page in the caller's terms: a page number below 1 means the first page, a size outside 1..100 means 25, and
      the data are the rows of that page, unless the offset exceeds an `int`. */
  ghost predicate PageShows<T>(rows: seq<T>, pageArg: int, pageSizeArg: int, r: PageResponse<T>) {
    && r.page == (if pageArg < 1 then 1 else pageArg)
    && r.pageSize == (if pageSizeArg < 1 || pageSizeArg > 100 then 25 else pageSizeArg)
    && r.total == |rows|
    && ((r.page - 1) * r.pageSize <= MAX_INT ==> r.data == RowsFrom(rows, (r.page - 1) * r.pageSize, r.pageSize))
  }

  /** `size` rows from position `start`, or as many as there are. */
  function RowsFrom<T>(rows: seq<T>, start: int, size: int): seq<T> {
    if start < 0 || size < 0 || start >= |rows| then []
    else if start + size >= |rows| then rows[start..]
    else rows[start..start + size]
  }

  lemma PageShowsIs<T>(rows: seq<T>, pageArg: int, pageSizeArg: int, r: PageResponse<T>)
    requires ListedPage(rows, EffectivePage(pageArg), EffectiveSize(pageSizeArg), r)
    ensures PageShows(rows, pageArg, pageSizeArg, r)
  {
    hide PageOf, TotalPages;
    var page, size := r.page, r.pageSize;
    if (page - 1) * size <= MAX_INT {
      PageIs(rows, size, page);
      Successor(page, size);
      RowsFromIs(rows, (page - 1) * size, size);
    }
  }

  lemma RowsFromIs<T>(rows: seq<T>, start: nat, size: nat)
    ensures RowsFrom(rows, start, size) == rows[Least(start, |rows|)..Least(start + size, |rows|)]
  {
  }

  // --------------------------------------------------------------- coverage

  lemma NoWrap(n: int)
    requires 0 <= n <= MAX_INT
    ensures Wrap64(n) == n
  {
  }

  lemma {:induction false} PageBounds(total: nat, size: nat, page: nat)
    requires size >= 1 && 1 <= page
    ensures page <= TotalPages(total, size) <==> (page - 1) * size < total
  {
    var q, m := total / size, total % size;
    assert total == q * size + m;
    if page <= q {
      assert page * size <= q * size;
      assert (page - 1) * size < page * size;
    } else if page == q + 1 {
      assert (page - 1) * size == q * size;
    } else {
      assert (page - 1) * size >= (q + 1) * size;
    }
  }

  lemma SliceIs<T>(rows: seq<T>, size: nat, start: nat)
    requires start <= MAX_INT
    ensures Slice(rows, size, Wrap64(start)) == rows[Least(start, |rows|)..Least(start + size, |rows|)]
  {
    NoWrap(start);
  }

  lemma PageIsSlice<T>(rows: seq<T>, size: nat, page: int)
    ensures PageOf(rows, page, size) == Slice(rows, size, Wrap64((page - 1) * size))
  {
  }

  lemma Successor(n: nat, size: nat)
    requires 1 <= n
    ensures n * size == (n - 1) * size + size
  {
  }

  /** Page `page` starts where the pages before it end, as long as its offset fits an `int`. */
  lemma PageIs<T>(rows: seq<T>, size: nat, page: nat)
    requires size >= 1 && 1 <= page && (page - 1) * size <= MAX_INT
    ensures PageOf(rows, page, size) ==
            rows[Least((page - 1) * size, |rows|)..Least(page * size, |rows|)]
  {
    hide *;
    var start: nat := (page - 1) * size;
    SliceIs(rows, size, start);
    Successor(page, size);
    PageIsSlice(rows, size, page);
  }

  function Pages<T>(rows: seq<T>, size: nat, n: nat): seq<T> {
    if n == 0 then [] else Pages(rows, size, n - 1) + PageOf(rows, n, size)
  }

  lemma JoinSlices<T>(rows: seq<T>, a: nat, b: nat)
    requires a <= b
    ensures rows[..Least(a, |rows|)] + rows[Least(a, |rows|)..Least(b, |rows|)] == rows[..Least(b, |rows|)]
  {
  }

  lemma {:induction false} PagesPrefix<T>(rows: seq<T>, size: nat, n: nat)
    requires 1 <= size && (n == 0 || (n - 1) * size <= MAX_INT)
    ensures Pages(rows, size, n) == rows[..Least(n * size, |rows|)]
  {
    hide PageOf;
    if n != 0 {
      Successor(n, size);
      if n >= 2 { Successor(n - 1, size); }
      PagesPrefix(rows, size, n - 1);
      PageIs(rows, size, n);
      JoinSlices(rows, (n - 1) * size, n * size);
    }
  }

  /** For a fixed row order, pages 1 to TotalPages put together are the whole list, each row once. */
  lemma {:induction false} PagesCoverList<T>(rows: seq<T>, size: nat)
    requires 1 <= size <= 100 && |rows| <= MAX_INT
    ensures Pages(rows, size, TotalPages(|rows|, size)) == rows
  {
    var n := TotalPages(|rows|, size);
    if n != 0 {
      PageBounds(|rows|, size, n);
      assert n * size == (n - 1) * size + size;
    }
    PageBounds(|rows|, size, n + 1);
    PagesPrefix(rows, size, n);
    assert n * size >= |rows|;
  }

  /** Every later page is empty while its offset fits an `int`; beyond that, exactly when there are no rows or the
      wrapped offset is past the end. */
  lemma {:induction false} LaterPageEmptyIff<T>(rows: seq<T>, size: nat, page: nat)
    requires 1 <= size <= 100 && TotalPages(|rows|, size) < page
    ensures (page - 1) * size <= MAX_INT ==> PageOf(rows, page, size) == []
    ensures PageOf(rows, page, size) == [] <==> rows == [] || Wrap64((page - 1) * size) >= |rows|
  {
    PageBounds(|rows|, size, page);
    if (page - 1) * size <= MAX_INT { NoWrap((page - 1) * size); }
  }

  /** The one 64-bit integer that is equal to `n` modulo 2 to the 64. */
  lemma WrapIs(n: int)
    ensures -MAX_INT - 1 <= Wrap64(n) <= MAX_INT && (Wrap64(n) - n) % 0x1_0000_0000_0000_0000 == 0
  {
    var two64 := 0x1_0000_0000_0000_0000;
    var q := (n + 0x8000_0000_0000_0000) / two64;
    assert Wrap64(n) - n == -q * two64;
  }

  /** An offset past the largest `int` but below 2 to the 64 becomes negative, and the first page is served. */
  lemma NegativeOffset<T>(rows: seq<T>, size: nat, page: int)
    requires MAX_INT < (page - 1) * size < 0x1_0000_0000_0000_0000
    ensures Wrap64((page - 1) * size) < 0 && PageOf(rows, page, size) == PageOf(rows, 1, size)
  {
    var offset := (page - 1) * size;
    assert Wrap64(offset) == offset - 0x1_0000_0000_0000_0000;
    assert (1 - 1) * size == 0;
  }

  /** A page number at which the offset wraps to zero serves the first page again. */
  lemma WrappedPage<T>(rows: seq<T>, size: nat, page: int)
    requires size == 4 && page == 0x4000_0000_0000_0000 + 1
    ensures page <= MAX_INT && PageOf(rows, page, size) == PageOf(rows, 1, size)
  {
    assert (page - 1) * size == 0x1_0000_0000_0000_0000;
  }

  // ------------------------------------------------- pages of separate calls

  /** Two listings agree on the update time at every position. */
  lemma SameStamps(t: Table, f: Filters, a: seq<Key>, b: seq<Key>, i: nat)
    requires IsListing(t, f, a) && IsListing(t, f, b) && i < |a|
    ensures |a| == |b| && t[a[i]].updatedAt == t[b[i]].updatedAt
  {
    hide Passes;
    SameSize(t, f, a, b);
    if t[a[i]].updatedAt > t[b[i]].updatedAt { NotNewer(t, f, a, b, i); }
    if t[b[i]].updatedAt > t[a[i]].updatedAt { NotNewer(t, f, b, a, i); }
  }

  lemma SameSize(t: Table, f: Filters, a: seq<Key>, b: seq<Key>)
    requires IsListing(t, f, a) && IsListing(t, f, b)
    ensures |a| == |b|
  {
    hide Passes;
    DistinctIff(a);
    DistinctIff(b);
    assert Elements(a) == Elements(b);
  }

  lemma DistinctPrefix(a: seq<Key>, n: nat)
    requires Distinct(a) && n <= |a|
    ensures |Elements(a[..n])| == n
  {
    assert Distinct(a[..n]);
    DistinctIff(a[..n]);
  }

  lemma NotNewer(t: Table, f: Filters, a: seq<Key>, b: seq<Key>, i: nat)
    requires IsListing(t, f, a) && IsListing(t, f, b) && i < |a| && i < |b|
    ensures t[a[i]].updatedAt <= t[b[i]].updatedAt
  {
    hide Passes;
    if t[a[i]].updatedAt > t[b[i]].updatedAt {
      forall k | k in Elements(a[..i + 1]) ensures k in Elements(b[..i]) {
        InFront(t, f, a, b, i + 1, i, k);
      }
      DistinctPrefix(a, i + 1);
      DistinctPrefix(b, i);
      SubsetSize(Elements(a[..i + 1]), Elements(b[..i]));
    }
  }

  /** A row before position `n` of one listing stands before `m` in any other whose rows from `m` on are older. */
  lemma InFront(t: Table, f: Filters, a: seq<Key>, b: seq<Key>, n: nat, m: nat, k: Key)
    requires IsListing(t, f, a) && IsListing(t, f, b) && 0 < n <= |a| && m < |b| && k in a[..n]
    requires t[a[n - 1]].updatedAt > t[b[m]].updatedAt
    ensures k in b[..m]
  {
    hide Passes;
    var x :| 0 <= x < n && a[x] == k;
    assert k in a && k in b;
    var y :| 0 <= y < |b| && b[y] == k;
    assert t[a[x]].updatedAt >= t[a[n - 1]].updatedAt;
    assert y < m;
    assert b[..m][y] == k;
  }

  /** No two rows of equal update time fall on two sides of the end of the first `n` rows. */
  ghost predicate CutsNoTie(t: Table, rows: seq<Key>, n: nat) {
    0 < n < |rows| && rows[n - 1] in t && rows[n] in t ==> t[rows[n - 1]].updatedAt > t[rows[n]].updatedAt
  }

  lemma SameFront(t: Table, f: Filters, a: seq<Key>, b: seq<Key>, n: nat)
    requires IsListing(t, f, a) && IsListing(t, f, b) && CutsNoTie(t, a, n) && n <= |a|
    ensures n <= |b| && Elements(a[..n]) == Elements(b[..n])
  {
    hide Passes;
    SameSize(t, f, a, b);
    if n == |a| {
      assert a[..n] == a && b[..n] == b;
      assert forall k :: k in a <==> k in b;
    } else if n > 0 {
      SameStamps(t, f, a, b, n);
      forall k | k in Elements(a[..n]) ensures k in Elements(b[..n]) {
        InFront(t, f, a, b, n, n, k);
      }
      DistinctPrefix(a, n);
      DistinctPrefix(b, n);
      SubsetSize(Elements(a[..n]), Elements(b[..n]));
    }
  }

  lemma {:induction false} FrontAndRest(a: seq<Key>, m: nat, n: nat)
    requires Distinct(a) && m <= n <= |a|
    ensures Elements(a[m..n]) == Elements(a[..n]) - Elements(a[..m])
  {
    forall k | k in Elements(a[..n]) - Elements(a[..m]) ensures k in Elements(a[m..n]) {
      var i :| 0 <= i < n && a[..n][i] == k;
      assert forall j | 0 <= j < m :: a[j] == a[..m][j];
      assert a[m..n][i - m] == k;
    }
    forall k | k in Elements(a[m..n]) ensures k in Elements(a[..n]) - Elements(a[..m]) {
      var i :| 0 <= i < n - m && a[m..n][i] == k;
      assert a[..n][m + i] == k;
    }
  }

  /** Whatever order each call happens to see, page `page` has the same rows. */
  ghost predicate StablePages(t: Table, f: Filters, rows: seq<Key>, size: nat)
    requires size >= 1
  {
    forall b: seq<Key>, page: nat | IsListing(t, f, b) && 1 <= page <= TotalPages(|rows|, size) ::
      Elements(PageOf(b, page, size)) == Elements(PageOf(rows, page, size))
  }

  ghost predicate NoCutTies(t: Table, rows: seq<Key>, size: nat) {
    forall page: nat | 1 <= page :: CutsNoTie(t, rows, page * size)
  }

  lemma SamePage(t: Table, f: Filters, a: seq<Key>, b: seq<Key>, size: nat, page: nat)
    requires IsListing(t, f, a) && IsListing(t, f, b) && NoCutTies(t, a, size)
    requires 1 <= size && |a| <= MAX_INT && 1 <= page <= TotalPages(|a|, size)
    ensures Elements(PageOf(b, page, size)) == Elements(PageOf(a, page, size))
  {
    hide Passes, PageOf, IsListing, TotalPages;
    SameSize(t, f, a, b);
    PageBounds(|a|, size, page);
    Successor(page, size);
    PageIs(a, size, page);
    PageIs(b, size, page);
    var m, n: nat := (page - 1) * size, Least(page * size, |a|);
    assert CutsNoTie(t, a, m) by {
      if page > 1 { assert CutsNoTie(t, a, (page - 1) * size); }
    }
    assert CutsNoTie(t, a, n) by {
      if n == page * size { assert CutsNoTie(t, a, page * size); }
    }
    SameFront(t, f, a, b, m);
    SameFront(t, f, a, b, n);
    ListingDistinct(t, f, a);
    ListingDistinct(t, f, b);
    FrontAndRest(a, m, n);
    FrontAndRest(b, m, n);
  }

  lemma ListingDistinct(t: Table, f: Filters, a: seq<Key>)
    requires IsListing(t, f, a)
    ensures Distinct(a) && forall i | 0 <= i < |a| :: a[i] in t
  {
  }

  /** The same listing with two neighbours of equal update time exchanged. */
  lemma SwapTie(t: Table, f: Filters, a: seq<Key>, n: nat) returns (b: seq<Key>)
    requires IsListing(t, f, a) && 0 < n < |a| && t[a[n - 1]].updatedAt == t[a[n]].updatedAt
    ensures IsListing(t, f, b) && |b| == |a| && a[n - 1] !in b[..n]
  {
    hide Passes;
    b := a[n - 1 := a[n]][n := a[n - 1]];
    assert b[n] == a[n - 1] && b[n - 1] == a[n];
    forall k ensures k in a <==> k in b {
      if k in a {
        var i :| 0 <= i < |a| && a[i] == k;
        assert b[if i == n then n - 1 else if i == n - 1 then n else i] == k;
      }
      if k in b {
        var i :| 0 <= i < |b| && b[i] == k;
        assert a[if i == n then n - 1 else if i == n - 1 then n else i] == k;
      }
    }
  }

  /** Pages fetched by separate calls fit together, whatever order the engine gives ties in each call, exactly when no
      page ends between two rows of equal update time. */
  lemma StablePagesIff(t: Table, f: Filters, rows: seq<Key>, size: nat)
    requires IsListing(t, f, rows) && 1 <= size <= 100 && |rows| <= MAX_INT
    ensures StablePages(t, f, rows, size) <==> NoCutTies(t, rows, size)
  {
    hide Passes, PageOf, IsListing, TotalPages, CutsNoTie;
    if NoCutTies(t, rows, size) {
      forall b: seq<Key>, page: nat | IsListing(t, f, b) && 1 <= page <= TotalPages(|rows|, size)
        ensures Elements(PageOf(b, page, size)) == Elements(PageOf(rows, page, size))
      {
        SamePage(t, f, rows, b, size, page);
      }
    }
    if StablePages(t, f, rows, size) {
      forall page: nat | 1 <= page ensures CutsNoTie(t, rows, page * size) {
        StableCut(t, f, rows, size, page);
      }
    }
  }

  lemma StableCut(t: Table, f: Filters, rows: seq<Key>, size: nat, page: nat)
    requires IsListing(t, f, rows) && 1 <= size <= 100 && |rows| <= MAX_INT && 1 <= page
    requires StablePages(t, f, rows, size)
    ensures CutsNoTie(t, rows, page * size)
  {
    hide Passes, PageOf, TotalPages;
    var n := page * size;
    if 0 < n < |rows| && t[rows[n - 1]].updatedAt == t[rows[n]].updatedAt {
      var b := TieMovesRow(t, f, rows, size, page);
    }
  }

  /** A tie across the end of a page: another call may see another row on that page. */
  lemma TieMovesRow(t: Table, f: Filters, rows: seq<Key>, size: nat, page: nat) returns (b: seq<Key>)
    requires IsListing(t, f, rows) && 1 <= size <= 100 && |rows| <= MAX_INT && 1 <= page && page * size < |rows|
    requires page * size > 0 && t[rows[page * size - 1]].updatedAt == t[rows[page * size]].updatedAt
    ensures IsListing(t, f, b) && page <= TotalPages(|rows|, size)
    ensures Elements(PageOf(b, page, size)) != Elements(PageOf(rows, page, size))
  {
    hide Passes, PageOf, TotalPages, IsListing;
    var n := page * size;
    b := SwapTie(t, f, rows, n);
    Successor(page, size);
    PageBounds(|rows|, size, page);
    PageIs(rows, size, page);
    PageIs(b, size, page);
    var m: nat := n - size;
    assert PageOf(rows, page, size) == rows[m..n] && PageOf(b, page, size) == b[m..n];
    assert rows[n - 1] == rows[m..n][size - 1];
    assert rows[n - 1] in Elements(PageOf(rows, page, size));
    NotInSlice(b, m, n, rows[n - 1]);
  }

  lemma NotInSlice(b: seq<Key>, m: nat, n: nat, k: Key)
    requires m <= n <= |b| && k !in b[..n]
    ensures k !in b[m..n]
  {
  }

  const NO_FILTER := Filters(None, "", "", "", "")

  /** Two rows written in the same second, one to a page: two calls may show one of them twice. */
  lemma TiedPages(p: string, q: string, row: Row)
    requires p != q
    ensures
      var rows := [Key(p, Voice), Key(q, Voice)];
      var t := map[rows[0] := row, rows[1] := row];
      IsListing(t, NO_FILTER, rows) && !StablePages(t, NO_FILTER, rows, 1)
  {
    hide PageOf, TotalPages;
    var rows := [Key(p, Voice), Key(q, Voice)];
    var t := map[rows[0] := row, rows[1] := row];
    assert IsListing(t, NO_FILTER, rows);
    StablePagesIff(t, NO_FILTER, rows, 1);
    assert !CutsNoTie(t, rows, 1 * 1);
  }
}
