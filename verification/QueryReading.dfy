/** The WHERE clauses of the list queries read as SQL: which rows the built text, with its bound values, selects. The
    texts are spelled out here; the builders' own constants are not used. */
module QueryReading {
  import opened Wrappers
  import opened Phone
  import opened NumberTable
  import opened Outcomes
  import opened Placeholders
  import opened QueryBuilders

  /** SQL's LIKE: `%` stands for any text, `_` for any one character. */
  predicate Like(pattern: string, s: string)
    decreases |pattern| + |s|
  {
    if pattern == [] then s == []
    else if pattern[0] == '%' then Like(pattern[1..], s) || (s != [] && Like(pattern, s[1..]))
    else s != [] && (pattern[0] == '_' || pattern[0] == s[0]) && Like(pattern[1..], s[1..])
  }

  predicate Contains(s: string, d: string) {
    exists i :: 0 <= i <= |s| && d <= s[i..]
  }

  /** A search text without wildcards finds exactly the numbers that contain it. */
  lemma {:induction false} SearchFinds(d: string, s: string)
    requires '%' !in d && '_' !in d
    ensures Like("%" + d + "%", s) <==> Contains(s, d)
    decreases |s|
  {
    var p := "%" + d + "%";
    assert p[1..] == d + "%";
    LikePrefix(d, s);
    assert d <= s <==> d <= s[0..];
    if s != [] {
      SearchFinds(d, s[1..]);
      if i :| 0 <= i <= |s[1..]| && d <= s[1..][i..] { assert s[1..][i..] == s[i + 1..]; }
      if i :| 1 <= i <= |s| && d <= s[i..] { assert s[1..][i - 1..] == s[i..]; }
    }
  }

  /** The other wildcard stands for one character. */
  lemma LikeOneCharacter(p: string, s: string)
    ensures Like("_" + p, s) <==> s != [] && Like(p, s[1..])
  {
    assert ("_" + p)[1..] == p;
  }

  lemma {:induction false} LikePrefix(d: string, s: string)
    requires '%' !in d && '_' !in d
    ensures Like(d + "%", s) <==> d <= s
  {
    if d == [] {
      LikeAnything(s);
      assert d + "%" == "%";
    } else {
      assert (d + "%")[1..] == d[1..] + "%" && (d + "%")[0] == d[0] && d[0] in d;
      if s != [] {
        LikePrefix(d[1..], s[1..]);
        assert d <= s <==> d[0] == s[0] && d[1..] <= s[1..] by {
          if d[0] == s[0] && d[1..] <= s[1..] { assert d == [d[0]] + d[1..] && s == [s[0]] + s[1..]; }
        }
      }
    }
  }

  lemma {:induction false} LikeAnything(s: string)
    ensures Like("%", s)
  {
    if s != [] { LikeAnything(s[1..]); }
  }

  // ------------------------------------------------------ the filters' meaning

  /** The row meets every filter that is set, column by column. */
  predicate Meets(row: Row, k: Key, f: Filters) {
    && (f.org.Some? ==> row.orgId == Some(f.org.value))
    && (f.dataset != "" ==> IsDataset(row.dataset, f.dataset))
    && (f.status != "" ==> IsStatus(row.status, f.status))
    && (f.channel != "" ==> ChannelText(k.channel, f.channel) || k.channel == Both)
    && (f.search != "" ==> Like("%" + Normalize(f.search) + "%", k.phone))
  }

  predicate IsDataset(d: Dataset, s: string) {
    match d
    case Auto => s == "auto"
    case Subscriber => s == "subscriber"
    case Itg => s == "itg"
    case TssRegistry => s == "tss_registry"
  }

  predicate IsStatus(st: Status, s: string) {
    match st
    case Active => s == "active"
    case Inactive => s == "inactive"
    case Pending => s == "pending"
  }

  // -------------------------------------------------------- reading the text

  /** A piece of SQL text and then a bound value. */
  predicate Starts(pieces: seq<Piece>, text: string) {
    |pieces| > |text| && pieces[..|text|] == TextOf(text) && pieces[|text|].Bound?
  }

  const ORG := " AND added_by_org_id = "
  const DATASET := " AND dataset = "
  const STATUS := " AND status = "
  const CHANNEL := " AND (channel = "
  const OR_BOTH := " OR channel = 'both')"
  const SEARCH := " AND phone_number LIKE "

  /** The condition the pieces state of a row; text that is none of the clauses selects nothing. */
  predicate Selects(pieces: seq<Piece>, row: Row, k: Key)
    decreases |pieces|
  {
    if pieces == [] then true
    else if Starts(pieces, ORG) then
      pieces[|ORG|].v.Int? && row.orgId == Some(pieces[|ORG|].v.n) && Selects(pieces[|ORG| + 1..], row, k)
    else if Starts(pieces, DATASET) then
      && pieces[|DATASET|].v.Str? && IsDataset(row.dataset, pieces[|DATASET|].v.s)
      && Selects(pieces[|DATASET| + 1..], row, k)
    else if Starts(pieces, STATUS) then
      && pieces[|STATUS|].v.Str? && IsStatus(row.status, pieces[|STATUS|].v.s)
      && Selects(pieces[|STATUS| + 1..], row, k)
    else if Starts(pieces, CHANNEL) then
      && pieces[|CHANNEL|].v.Str? && TextOf(OR_BOTH) <= pieces[|CHANNEL| + 1..]
      && (ChannelText(k.channel, pieces[|CHANNEL|].v.s) || k.channel == Both)
      && Selects(pieces[|CHANNEL| + 1..][|OR_BOTH|..], row, k)
    else if Starts(pieces, SEARCH) then
      && pieces[|SEARCH|].v.Str? && Like(pieces[|SEARCH|].v.s, k.phone)
      && Selects(pieces[|SEARCH| + 1..], row, k)
    else false
  }

  lemma StartsWith(text: string, v: Value, rest: seq<Piece>)
    ensures
      var pieces := TextOf(text) + [Bound(v)] + rest;
      Starts(pieces, text) && pieces[|text|] == Bound(v) && pieces[|text| + 1..] == rest
  {
    var pieces := TextOf(text) + [Bound(v)] + rest;
    assert pieces[..|text|] == TextOf(text);
  }

  /** Texts that differ in their sixth character cannot be confused. */
  lemma StartsElse(text: string, v: Value, rest: seq<Piece>, other: string)
    requires |text| > 5 && |other| > 5 && text[5] != other[5]
    ensures !Starts(TextOf(text) + [Bound(v)] + rest, other)
  {
    var pieces := TextOf(text) + [Bound(v)] + rest;
    assert pieces[5] == Piece.Text(text[5]);
    assert |pieces| > |other| ==> pieces[..|other|][5] == pieces[5];
  }

  lemma ReadOrg(v: Value, rest: seq<Piece>, row: Row, k: Key)
    ensures Selects(TextOf(ORG) + [Bound(v)] + rest, row, k) <==>
            v.Int? && row.orgId == Some(v.n) && Selects(rest, row, k)
  {
    StartsWith(ORG, v, rest);
  }

  lemma ReadDataset(v: Value, rest: seq<Piece>, row: Row, k: Key)
    ensures Selects(TextOf(DATASET) + [Bound(v)] + rest, row, k) <==>
            v.Str? && IsDataset(row.dataset, v.s) && Selects(rest, row, k)
  {
    hide Starts, TextOf;
    StartsWith(DATASET, v, rest);
    StartsElse(DATASET, v, rest, ORG);
  }

  lemma ReadStatus(v: Value, rest: seq<Piece>, row: Row, k: Key)
    ensures Selects(TextOf(STATUS) + [Bound(v)] + rest, row, k) <==>
            v.Str? && IsStatus(row.status, v.s) && Selects(rest, row, k)
  {
    hide Starts, TextOf;
    StartsWith(STATUS, v, rest);
    StartsElse(STATUS, v, rest, ORG);
    StartsElse(STATUS, v, rest, DATASET);
  }

  lemma ReadChannel(v: Value, rest: seq<Piece>, row: Row, k: Key)
    ensures Selects(TextOf(CHANNEL) + [Bound(v)] + (TextOf(OR_BOTH) + rest), row, k) <==>
            v.Str? && (ChannelText(k.channel, v.s) || k.channel == Both) && Selects(rest, row, k)
  {
    hide Starts, TextOf;
    var more := TextOf(OR_BOTH) + rest;
    StartsWith(CHANNEL, v, more);
    StartsElse(CHANNEL, v, more, ORG);
    StartsElse(CHANNEL, v, more, DATASET);
    StartsElse(CHANNEL, v, more, STATUS);
    TextSize(OR_BOTH);
    assert more[|OR_BOTH|..] == rest;
  }

  lemma ReadSearch(v: Value, rest: seq<Piece>, row: Row, k: Key)
    ensures Selects(TextOf(SEARCH) + [Bound(v)] + rest, row, k) <==>
            v.Str? && Like(v.s, k.phone) && Selects(rest, row, k)
  {
    hide Starts, TextOf;
    StartsWith(SEARCH, v, rest);
    StartsElse(SEARCH, v, rest, ORG);
    StartsElse(SEARCH, v, rest, DATASET);
    StartsElse(SEARCH, v, rest, STATUS);
    StartsElse(SEARCH, v, rest, CHANNEL);
  }

  lemma TextSize(s: string)
    ensures |TextOf(s)| == |s|
  {
  }

  // ------------------------------------------------- what the builder builds

  lemma OrgFilter(present: bool, v: Value, rest: seq<Piece>, row: Row, k: Key)
    ensures Selects(FilterPieces(present, ORG_TEXT, v, "") + rest, row, k) <==>
            (present ==> v.Int? && row.orgId == Some(v.n)) && Selects(rest, row, k)
  {
    hide Selects;
    assert TextOf("") == [];
    if present {
      ReadOrg(v, rest, row, k);
      assert FilterPieces(true, ORG_TEXT, v, "") + rest == TextOf(ORG) + [Bound(v)] + rest;
    } else {
      assert FilterPieces(false, ORG_TEXT, v, "") + rest == rest;
    }
  }

  lemma DatasetFilter(present: bool, v: Value, rest: seq<Piece>, row: Row, k: Key)
    ensures Selects(FilterPieces(present, DATASET_TEXT, v, "") + rest, row, k) <==>
            (present ==> v.Str? && IsDataset(row.dataset, v.s)) && Selects(rest, row, k)
  {
    hide Selects;
    assert TextOf("") == [];
    if present {
      ReadDataset(v, rest, row, k);
      assert FilterPieces(true, DATASET_TEXT, v, "") + rest == TextOf(DATASET) + [Bound(v)] + rest;
    } else {
      assert FilterPieces(false, DATASET_TEXT, v, "") + rest == rest;
    }
  }

  lemma StatusFilter(present: bool, v: Value, rest: seq<Piece>, row: Row, k: Key)
    ensures Selects(FilterPieces(present, STATUS_TEXT, v, "") + rest, row, k) <==>
            (present ==> v.Str? && IsStatus(row.status, v.s)) && Selects(rest, row, k)
  {
    hide Selects;
    assert TextOf("") == [];
    if present {
      ReadStatus(v, rest, row, k);
      assert FilterPieces(true, STATUS_TEXT, v, "") + rest == TextOf(STATUS) + [Bound(v)] + rest;
    } else {
      assert FilterPieces(false, STATUS_TEXT, v, "") + rest == rest;
    }
  }

  lemma ChannelFilter(present: bool, v: Value, rest: seq<Piece>, row: Row, k: Key)
    ensures Selects(FilterPieces(present, CHANNEL_TEXT, v, CHANNEL_TAIL) + rest, row, k) <==>
            (present ==> v.Str? && (ChannelText(k.channel, v.s) || k.channel == Both)) && Selects(rest, row, k)
  {
    hide Selects;
    if present {
      ReadChannel(v, rest, row, k);
      assert FilterPieces(true, CHANNEL_TEXT, v, CHANNEL_TAIL) + rest
          == TextOf(CHANNEL) + [Bound(v)] + (TextOf(OR_BOTH) + rest);
    } else {
      assert FilterPieces(false, CHANNEL_TEXT, v, CHANNEL_TAIL) + rest == rest;
    }
  }

  lemma SearchFilter(present: bool, v: Value, rest: seq<Piece>, row: Row, k: Key)
    ensures Selects(FilterPieces(present, SEARCH_TEXT, v, "") + rest, row, k) <==>
            (present ==> v.Str? && Like(v.s, k.phone)) && Selects(rest, row, k)
  {
    hide Selects, Like;
    assert TextOf("") == [];
    if present {
      ReadSearch(v, rest, row, k);
      assert FilterPieces(true, SEARCH_TEXT, v, "") + rest == TextOf(SEARCH) + [Bound(v)] + rest;
    } else {
      assert FilterPieces(false, SEARCH_TEXT, v, "") + rest == rest;
    }
  }

  lemma SelectsAll(row: Row, k: Key)
    ensures Selects([], row, k)
  {
  }

  /** The WHERE clause the builder writes, with the values it binds, selects exactly the rows that meet the filters: for
      every subset of filters, on every row. */
  lemma {:induction false} WhereSelectsIff(f: Filters, row: Row, k: Key)
    ensures Selects(WherePieces(f), row, k) <==> Meets(row, k, f)
  {
    hide Selects, FilterPieces, Like, IsDataset, IsStatus, ChannelText, Normalize;
    var search := Str(LikePattern(f.search));
    var f1 := FilterPieces(f.org.Some?, ORG_TEXT, OrgValue(f), "");
    var f2 := FilterPieces(f.dataset != "", DATASET_TEXT, Str(f.dataset), "");
    var f3 := FilterPieces(f.status != "", STATUS_TEXT, Str(f.status), "");
    var f4 := FilterPieces(f.channel != "", CHANNEL_TEXT, Str(f.channel), CHANNEL_TAIL);
    var f5 := FilterPieces(f.search != "", SEARCH_TEXT, search, "");
    OrgFilter(f.org.Some?, OrgValue(f), f2 + (f3 + (f4 + (f5 + []))), row, k);
    DatasetFilter(f.dataset != "", Str(f.dataset), f3 + (f4 + (f5 + [])), row, k);
    StatusFilter(f.status != "", Str(f.status), f4 + (f5 + []), row, k);
    ChannelFilter(f.channel != "", Str(f.channel), f5 + [], row, k);
    SearchFilter(f.search != "", search, [], row, k);
    SelectsAll(row, k);
    assert WherePieces(f) == f1 + (f2 + (f3 + (f4 + (f5 + []))));
  }

  /** The two queries of the list around one condition: the count, and one page of it, newest first. */
  ghost predicate AsksFor(count: Query, page: Query, where: seq<Piece>, size: int, offset: int) {
    && Means(count, TextOf("SELECT COUNT(*)" + " FROM dno_numbers" + " WHERE 1=1") + where)
    && Means(page, TextOf("SELECT id, phone_number, dataset, " + "number_type, channel, status, "
                          + "reason, created_at, updated_at" + " FROM dno_numbers" + " WHERE 1=1")
                   + where
                   + TextOf(" ORDER BY updated_at DESC LIMIT ") + [Bound(Int(size))]
                   + TextOf(" OFFSET ") + [Bound(Int(offset))])
  }

  lemma AsksForIs(count: Query, page: Query, f: Filters, size: int, offset: int)
    requires Means(count, TextOf(COUNT_SELECT) + WherePieces(f)) && Means(page, PagePieces(f, size, offset))
    ensures AsksFor(count, page, WherePieces(f), size, offset)
  {
    hide Means, TextOf, WherePieces;
  }

  /** The query of the bulk lookup, spelled out: these numbers, in order, active, on this channel or on both. */
  lemma InQuerySays(numbers: seq<string>, channel: string)
    ensures InPieces(BULK_SELECT, numbers, channel) ==
            TextOf("SELECT phone_number, dataset, " + "channel, status, updated_at" + " FROM dno_numbers")
            + TextOf(" WHERE phone_number IN (") + ListPieces(numbers) + TextOf(") AND (channel = ")
            + [Bound(Str(channel))] + TextOf(" OR channel = 'both')" + " AND status = 'active'")
    ensures InPieces(ANALYZER_SELECT, numbers, channel) ==
            TextOf("SELECT phone_number, dataset, " + "threat_category" + " FROM dno_numbers")
            + TextOf(" WHERE phone_number IN (") + ListPieces(numbers) + TextOf(") AND (channel = ")
            + [Bound(Str(channel))] + TextOf(" OR channel = 'both')" + " AND status = 'active'")
  {
    hide TextOf, ListPieces;
  }
}
