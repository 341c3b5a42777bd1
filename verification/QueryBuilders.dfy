/** The parameterised queries of the number service: the IN list of bulk lookups and of the traffic analyser, and the
    filters of the number list (internal/service/dno.go, internal/service/features.go). */
module QueryBuilders {
  import opened Wrappers
  import opened Phone
  import opened Placeholders

  datatype Query = Query(text: string, args: seq<Value>)

  /** The query as sent to the engine binds, on either engine, to exactly these pieces. */
  ghost predicate Means(q: Query, pieces: seq<Piece>) {
    && Built(q.text, q.args, pieces)
    && BindNumbered(Q(false, q.text), q.args) == pieces
    && BindPositional(Q(true, q.text), q.args, 0) == pieces
  }

  lemma BuiltIsMeant(q: Query, pieces: seq<Piece>)
    requires Built(q.text, q.args, pieces)
    ensures Means(q, pieces)
  {
    BuiltMeans(q.text, q.args, pieces, true);
    BuiltMeans(q.text, q.args, pieces, false);
  }

  // ---------------------------------------------------------- the IN list

  /** The source builds the same text for both users of the list; only the selected columns differ. */
  const BULK_COLUMNS := "SELECT phone_number, dataset, "
  const BULK_COLUMNS_2 := "channel, status, updated_at"
  const FROM_NUMBERS := " FROM dno_numbers"
  const BULK_SELECT := BULK_COLUMNS + BULK_COLUMNS_2 + FROM_NUMBERS
  const ANALYZER_SELECT := BULK_COLUMNS + "threat_category" + FROM_NUMBERS
  const IN_OPEN := " WHERE phone_number IN ("
  const IN_CLOSE := ") AND (channel = "
  const IN_TAIL := " OR channel = 'both')" + " AND status = 'active'"

  function Strings(numbers: seq<string>): (r: seq<Value>)
    ensures |r| == |numbers|
  {
    seq(|numbers|, i requires 0 <= i < |numbers| => Str(numbers[i]))
  }

  /** `$1`, `$2`, ..., `$n` */
  function Places(n: nat): (r: seq<string>)
    ensures |r| == n
  {
    seq(n, i => if i < 0 then "" else Place(i + 1))
  }

  /** strings.Join */
  function Join(parts: seq<string>, sep: string): string {
    if parts == [] then ""
    else if |parts| == 1 then parts[0]
    else Join(parts[..|parts| - 1], sep) + sep + parts[|parts| - 1]
  }

  /** The list the query should ask for: each number in order, separated by commas. */
  function ListPieces(numbers: seq<string>): seq<Piece> {
    if numbers == [] then []
    else if |numbers| == 1 then [Bound(Str(numbers[0]))]
    else ListPieces(numbers[..|numbers| - 1]) + TextOf(",") + [Bound(Str(numbers[|numbers| - 1]))]
  }

  function InPieces(select: string, numbers: seq<string>, channel: string): seq<Piece> {
    TextOf(select) + TextOf(IN_OPEN) + ListPieces(numbers) + TextOf(IN_CLOSE) + [Bound(Str(channel))] + TextOf(IN_TAIL)
  }

  lemma JoinStep(n: nat)
    requires n >= 1
    ensures Join(Places(n + 1), ",") == Join(Places(n), ",") + "," + Place(n + 1)
  {
    hide Place;
    var parts := Places(n + 1);
    assert parts[..n] == Places(n);
    assert parts[n] == Place(n + 1);
  }

  lemma StringsStep(numbers: seq<string>)
    requires numbers != []
    ensures Strings(numbers) == Strings(numbers[..|numbers| - 1]) + [Str(numbers[|numbers| - 1])]
  {
  }

  lemma ListPiecesStep(numbers: seq<string>)
    requires |numbers| >= 2
    ensures ListPieces(numbers) ==
            ListPieces(numbers[..|numbers| - 1]) + TextOf(",") + [Bound(Str(numbers[|numbers| - 1]))]
  {
  }

  lemma ListOne(numbers: seq<string>)
    requires |numbers| == 1
    ensures Strings(numbers) == [Str(numbers[0])] && Join(Places(1), ",") == Place(1)
    ensures ListPieces(numbers) == [Bound(Str(numbers[0]))]
  {
  }

  lemma {:induction false} BuiltList(text: string, pieces: seq<Piece>, numbers: seq<string>)
    requires Built(text, [], pieces) && numbers != []
    ensures Built(text + Join(Places(|numbers|), ","), Strings(numbers), pieces + ListPieces(numbers))
    decreases |numbers|
  {
    hide *;
    var n := |numbers| - 1;
    if n == 0 {
      ListOne(numbers);
      BuiltPlace(text, [], pieces, Str(numbers[0]));
      assert [] + [Str(numbers[0])] == Strings(numbers);
    } else {
      var init := numbers[..n];
      BuiltList(text, pieces, init);
      StringsStep(numbers);
      JoinStep(n);
      ListPiecesStep(numbers);
      TextsArePlain();
      var text1, pieces1 := text + Join(Places(n), ","), pieces + ListPieces(init);
      BuiltText(text1, Strings(init), pieces1, ",");
      BuiltPlace(text1 + ",", Strings(init), pieces1 + TextOf(","), Str(numbers[n]));
      assert text + Join(Places(n + 1), ",") == text1 + "," + Place(n + 1);
      assert pieces + ListPieces(numbers) == pieces1 + TextOf(",") + [Bound(Str(numbers[n]))];
    }
  }

  lemma BulkColumnsPlain()
    ensures Plain(BULK_COLUMNS)
  {
  }

  lemma BulkColumns2NoPlace()
    ensures NoPlace(BULK_COLUMNS_2) && NoPlace("threat_category")
  {
  }

  lemma PlainBulkSelect()
    ensures Plain(BULK_SELECT) && Plain(ANALYZER_SELECT)
  {
    hide Plain, NoPlace;
    BulkColumnsPlain();
    BulkColumns2NoPlace();
    FromWhereNoPlace();
    PlainConcat(BULK_COLUMNS, BULK_COLUMNS_2);
    PlainConcat(BULK_COLUMNS + BULK_COLUMNS_2, FROM_NUMBERS);
    PlainConcat(BULK_COLUMNS, "threat_category");
    PlainConcat(BULK_COLUMNS + "threat_category", FROM_NUMBERS);
  }

  lemma InTextsPlain()
    ensures Plain(IN_OPEN) && Plain(IN_CLOSE)
  {
  }

  lemma InTailPlain()
    ensures Plain(IN_TAIL) && Plain(",")
  {
  }

  lemma TextsArePlain()
    ensures Plain(BULK_SELECT) && Plain(ANALYZER_SELECT) && Plain(IN_OPEN) && Plain(IN_CLOSE) && Plain(IN_TAIL)
    ensures Plain(",")
  {
    hide Plain;
    PlainBulkSelect();
    InTextsPlain();
    InTailPlain();
  }

  lemma BuiltIn(select: string, numbers: seq<string>, channel: string)
    requires Plain(select) && numbers != []
    ensures Built(select + IN_OPEN + Join(Places(|numbers|), ",") + IN_CLOSE + Place(|numbers| + 1) + IN_TAIL,
                  Strings(numbers) + [Str(channel)], InPieces(select, numbers, channel))
  {
    hide Built, Place, Join, ListPieces, TextOf;
    TextsArePlain();
    BuiltStart(select);
    BuiltText(select, [], TextOf(select), IN_OPEN);
    var t0, p0 := select + IN_OPEN, TextOf(select) + TextOf(IN_OPEN);
    BuiltList(t0, p0, numbers);
    var t1, p1, a1 := t0 + Join(Places(|numbers|), ","), p0 + ListPieces(numbers), Strings(numbers);
    BuiltText(t1, a1, p1, IN_CLOSE);
    BuiltPlace(t1 + IN_CLOSE, a1, p1 + TextOf(IN_CLOSE), Str(channel));
    BuiltText(t1 + IN_CLOSE + Place(|numbers| + 1), a1 + [Str(channel)],
              p1 + TextOf(IN_CLOSE) + [Bound(Str(channel))], IN_TAIL);
  }

  /** The builder of BulkQuery and, batch by batch, of AnalyzeTraffic. */
  method BuildInQuery(select: string, numbers: seq<string>, channel: string) returns (q: Query)
    requires select == BULK_SELECT || select == ANALYZER_SELECT
    requires numbers != []
    ensures Means(q, InPieces(select, numbers, channel)) && |q.args| == |numbers| + 1
  {
    var placeholders: seq<string> := [];
    var args: seq<Value> := [];
    for i := 0 to |numbers|
      invariant placeholders == Places(i) && args == Strings(numbers[..i])
    {
      placeholders := placeholders + [Place(i + 1)];
      args := args + [Str(numbers[i])];
      assert numbers[..i + 1][..i] == numbers[..i];
    }
    assert numbers[..|numbers|] == numbers;
    var chanIdx := |numbers| + 1;
    args := args + [Str(channel)];
    q := Query(select + IN_OPEN + Join(placeholders, ",") + IN_CLOSE + Place(chanIdx) + IN_TAIL, args);
    TextsArePlain();
    BuiltIn(select, numbers, channel);
    BuiltIsMeant(q, InPieces(select, numbers, channel));
  }

  // ------------------------------------------------------- the list filters

  datatype Filters = Filters(org: Option<int>, dataset: string, status: string, channel: string, search: string)

  function LikePattern(search: string): string {
    "%" + Normalize(search) + "%"
  }

  /** One filter of the WHERE clause: its text around its own value, when it is set. */
  function FilterPieces(present: bool, before: string, v: Value, after: string): seq<Piece> {
    if present then TextOf(before) + [Bound(v)] + TextOf(after) else []
  }

  const WHERE_TEXT := " WHERE 1=1"
  const ORG_TEXT := " AND added_by_org_id = "
  const DATASET_TEXT := " AND dataset = "
  const STATUS_TEXT := " AND status = "
  const CHANNEL_TEXT := " AND (channel = "
  const CHANNEL_TAIL := " OR channel = 'both')"
  const SEARCH_TEXT := " AND phone_number LIKE "
  const COUNT_SELECT := "SELECT COUNT(*)" + FROM_NUMBERS + WHERE_TEXT
  const PAGE_COLUMNS := "SELECT id, phone_number, dataset, "
  const PAGE_COLUMNS_2 := "number_type, channel, status, "
  const PAGE_COLUMNS_3 := "reason, created_at, updated_at"
  const PAGE_SELECT := PAGE_COLUMNS + PAGE_COLUMNS_2 + PAGE_COLUMNS_3 + FROM_NUMBERS + WHERE_TEXT
  const LIMIT_TEXT := " ORDER BY updated_at DESC LIMIT "
  const OFFSET_TEXT := " OFFSET "

  function OrgValue(f: Filters): Value {
    Int(if f.org.Some? then f.org.value else 0)
  }

  /** What the WHERE clause should restrict by: every filter that is set, each with its own value. */
  function WherePieces(f: Filters): seq<Piece> {
    FilterPieces(f.org.Some?, ORG_TEXT, OrgValue(f), "")
    + FilterPieces(f.dataset != "", DATASET_TEXT, Str(f.dataset), "")
    + FilterPieces(f.status != "", STATUS_TEXT, Str(f.status), "")
    + FilterPieces(f.channel != "", CHANNEL_TEXT, Str(f.channel), CHANNEL_TAIL)
    + FilterPieces(f.search != "", SEARCH_TEXT, Str(LikePattern(f.search)), "")
  }

  lemma PlainCountSelect()
    ensures Plain(COUNT_SELECT)
  {
  }

  lemma PlainConcat(a: string, b: string)
    requires Plain(a) && a != [] && NoPlace(b)
    ensures Plain(a + b)
  {
  }

  lemma PlainPageSelect()
    ensures Plain(PAGE_SELECT)
  {
    hide Plain, NoPlace;
    PageColumnsPlain();
    PageColumns2NoPlace();
    PageColumns3NoPlace();
    FromWhereNoPlace();
    PlainConcat(PAGE_COLUMNS, PAGE_COLUMNS_2);
    PlainConcat(PAGE_COLUMNS + PAGE_COLUMNS_2, PAGE_COLUMNS_3);
    PlainConcat(PAGE_COLUMNS + PAGE_COLUMNS_2 + PAGE_COLUMNS_3, FROM_NUMBERS);
    PlainConcat(PAGE_COLUMNS + PAGE_COLUMNS_2 + PAGE_COLUMNS_3 + FROM_NUMBERS, WHERE_TEXT);
  }

  /** A literal that may stand anywhere in a query. */
  predicate NoPlace(s: string) {
    '$' !in s && '?' !in s
  }

  lemma PageColumnsPlain()
    ensures Plain(PAGE_COLUMNS)
  {
  }

  lemma PageColumns2NoPlace()
    ensures NoPlace(PAGE_COLUMNS_2)
  {
  }

  lemma PageColumns3NoPlace()
    ensures NoPlace(PAGE_COLUMNS_3)
  {
  }

  lemma FromWhereNoPlace()
    ensures NoPlace(FROM_NUMBERS) && NoPlace(WHERE_TEXT)
  {
  }

  lemma FilterTextsArePlain()
    ensures Plain(ORG_TEXT) && Plain(DATASET_TEXT) && Plain(STATUS_TEXT) && Plain("")
    ensures Plain(CHANNEL_TEXT) && Plain(CHANNEL_TAIL) && Plain(SEARCH_TEXT)
  {
    OrgTextPlain();
    SearchTextPlain();
    ChannelTextsPlain();
  }

  lemma OrgTextPlain()
    ensures Plain(ORG_TEXT)
  {
  }

  lemma SearchTextPlain()
    ensures Plain(SEARCH_TEXT)
  {
  }

  lemma ChannelTextsPlain()
    ensures Plain(CHANNEL_TEXT) && Plain(CHANNEL_TAIL)
  {
  }

  lemma PageTextsArePlain()
    ensures Plain(LIMIT_TEXT) && Plain(OFFSET_TEXT)
  {
  }

  lemma BuiltFilter(where: string, args: seq<Value>, pieces: seq<Piece>, before: string, v: Value, after: string)
    requires Built(where, args, pieces) && Plain(before) && Plain(after)
    ensures Built(where + before + Place(|args| + 1) + after, args + [v], pieces + FilterPieces(true, before, v, after))
  {
    hide Built, Place, TextOf, Plain;
    BuiltText(where, args, pieces, before);
    BuiltPlace(where + before, args, pieces + TextOf(before), v);
    BuiltText(where + before + Place(|args| + 1), args + [v], pieces + TextOf(before) + [Bound(v)], after);
    assert pieces + TextOf(before) + [Bound(v)] + TextOf(after) == pieces + FilterPieces(true, before, v, after);
  }

  /** The closure `nextParam`, then one `where +=` and one append to `args`, for each filter that is set. */
  method AddFilter(where: string, args: seq<Value>, paramIdx: nat, present: bool, before: string, v: Value,
                   after: string, ghost pieces: seq<Piece>)
    returns (where': string, args': seq<Value>, paramIdx': nat)
    requires Built(where, args, pieces) && paramIdx == |args| && Plain(before) && Plain(after)
    ensures Built(where', args', pieces + FilterPieces(present, before, v, after)) && paramIdx' == |args'|
  {
    where', args', paramIdx' := where, args, paramIdx;
    if present {
      paramIdx' := paramIdx' + 1;
      where' := where' + before + Place(paramIdx') + after;
      args' := args' + [v];
      BuiltFilter(where, args, pieces, before, v, after);
    } else {
      assert pieces + FilterPieces(present, before, v, after) == pieces;
    }
  }

  /** A query of the list: the SELECT, the filters, and nothing else. */
  method BuildFiltered(select: string, f: Filters) returns (where: string, args: seq<Value>, paramIdx: nat)
    requires select == COUNT_SELECT || select == PAGE_SELECT
    ensures Built(where, args, TextOf(select) + WherePieces(f)) && paramIdx == |args|
  {
    hide Built, TextOf, FilterPieces, Plain, Place;
    FilterTextsArePlain();
    PlainCountSelect();
    PlainPageSelect();
    BuiltStart(select);
    ghost var p0 := TextOf(select);
    ghost var f1 := FilterPieces(f.org.Some?, ORG_TEXT, OrgValue(f), "");
    ghost var f2 := FilterPieces(f.dataset != "", DATASET_TEXT, Str(f.dataset), "");
    ghost var f3 := FilterPieces(f.status != "", STATUS_TEXT, Str(f.status), "");
    ghost var f4 := FilterPieces(f.channel != "", CHANNEL_TEXT, Str(f.channel), CHANNEL_TAIL);
    ghost var f5 := FilterPieces(f.search != "", SEARCH_TEXT, Str(LikePattern(f.search)), "");
    where, args, paramIdx := AddFilter(select, [], 0, f.org.Some?, ORG_TEXT, OrgValue(f), "", p0);
    where, args, paramIdx :=
      AddFilter(where, args, paramIdx, f.dataset != "", DATASET_TEXT, Str(f.dataset), "", p0 + f1);
    where, args, paramIdx :=
      AddFilter(where, args, paramIdx, f.status != "", STATUS_TEXT, Str(f.status), "", p0 + f1 + f2);
    where, args, paramIdx :=
      AddFilter(where, args, paramIdx, f.channel != "", CHANNEL_TEXT, Str(f.channel), CHANNEL_TAIL,
                p0 + f1 + f2 + f3);
    where, args, paramIdx :=
      AddFilter(where, args, paramIdx, f.search != "", SEARCH_TEXT, Str(LikePattern(f.search)), "",
                p0 + f1 + f2 + f3 + f4);
    assert p0 + f1 + f2 + f3 + f4 + f5 == p0 + (f1 + f2 + f3 + f4 + f5);
  }

  /** What the page query should be: the filtered list, newest first, cut to one page. */
  function PagePieces(f: Filters, pageSize: int, offset: int): seq<Piece> {
    TextOf(PAGE_SELECT) + WherePieces(f) + TextOf(LIMIT_TEXT) + [Bound(Int(pageSize))]
    + TextOf(OFFSET_TEXT) + [Bound(Int(offset))]
  }

  /** The two queries of ListNumbers. */
  method BuildList(f: Filters, pageSize: int, offset: int) returns (count: Query, page: Query)
    ensures Means(count, TextOf(COUNT_SELECT) + WherePieces(f))
    ensures Means(page, PagePieces(f, pageSize, offset))
  {
    hide Built, TextOf, WherePieces, Plain, Place, Means;
    PageTextsArePlain();
    var where, args, paramIdx := BuildFiltered(COUNT_SELECT, f);
    count := Query(where, args);
    BuiltIsMeant(count, TextOf(COUNT_SELECT) + WherePieces(f));

    where, args, paramIdx := BuildFiltered(PAGE_SELECT, f);
    ghost var pieces := TextOf(PAGE_SELECT) + WherePieces(f);
    BuiltText(where, args, pieces, LIMIT_TEXT);
    BuiltPlace(where + LIMIT_TEXT, args, pieces + TextOf(LIMIT_TEXT), Int(pageSize));
    ghost var pieces1 := pieces + TextOf(LIMIT_TEXT) + [Bound(Int(pageSize))];
    var text1 := where + LIMIT_TEXT + Place(paramIdx + 1);
    BuiltText(text1, args + [Int(pageSize)], pieces1, OFFSET_TEXT);
    BuiltPlace(text1 + OFFSET_TEXT, args + [Int(pageSize)], pieces1 + TextOf(OFFSET_TEXT), Int(offset));
    page := Query(text1 + OFFSET_TEXT + Place(paramIdx + 2), args + [Int(pageSize)] + [Int(offset)]);
    BuiltIsMeant(page, pieces1 + TextOf(OFFSET_TEXT) + [Bound(Int(offset))]);
  }
}
