/** What a lookup may answer, and when a cache of answers agrees with the table. */
module Lookup {
  import opened Wrappers
  import opened Phone
  import opened NumberTable
  import opened TtlCache
  import opened Outcomes
  import QueryLog

  datatype Response = Response(phone: string, isDNO: bool, dataset: Option<Dataset>, channel: string, status: string,
                               lastUpdated: Option<int>)

  function MissResponse(phone: string, channel: string): Response {
    Response(phone, false, None, channel, "", None)
  }

  function HitResponse(k: Key, row: Row): Response {
    Response(k.phone, true, Some(row.dataset), ChannelName(k.channel), StatusName(row.status), Some(row.updatedAt))
  }

  /** The answer bulk lookups give for an input that is not a phone number. */
  function ErrorResponse(input: string, channel: string): Response {
    Response(input, false, None, channel, "error", None)
  }

  /** The lookup without a cache, as a relation: LIMIT 1 has no ORDER BY, so any matching active row may be the one
      reported; the hit flag is determined. */
  ghost predicate Admissible(t: Table, phone: string, channel: string, r: Response) {
    if Hit(t, phone, channel) then exists k :: Matches(t, k, phone, channel) && r == HitResponse(k, t[k])
    else r == MissResponse(phone, channel)
  }

  /** The answer shows this row: its number, dataset, channel and update time, and that it is active. */
  predicate ShowsRow(k: Key, row: Row, r: Response) {
    && r.phone == k.phone && r.isDNO && r.dataset == Some(row.dataset) && ChannelText(k.channel, r.channel)
    && r.status == "active" && r.lastUpdated == Some(row.updatedAt)
  }

  /** The same promise in the caller's terms: a hit shows one row that blocks the number on this channel; a miss says
      that there is none. */
  ghost predicate Reports(t: Table, phone: string, channel: string, r: Response) {
    if exists k :: IsBlocking(t, k, phone, channel)
    then exists k :: IsBlocking(t, k, phone, channel) && ShowsRow(k, t[k], r)
    else r == Response(phone, false, None, channel, "", None)
  }

  lemma BlockingIff(t: Table, k: Key, phone: string, channel: string)
    ensures IsBlocking(t, k, phone, channel) <==> Matches(t, k, phone, channel)
  {
  }

  lemma ShowsRowIff(k: Key, row: Row, r: Response)
    requires row.status == Active
    ensures ShowsRow(k, row, r) <==> r == HitResponse(k, row)
  {
  }

  /** Both directions, for every table and answer. */
  lemma {:induction false} AdmissibleIff(t: Table, phone: string, channel: string, r: Response)
    ensures Admissible(t, phone, channel, r) <==> Reports(t, phone, channel, r)
  {
    hide ShowsRow, HitResponse;
    forall k
      ensures IsBlocking(t, k, phone, channel) <==> Matches(t, k, phone, channel)
      ensures IsBlocking(t, k, phone, channel) ==> (ShowsRow(k, t[k], r) <==> r == HitResponse(k, t[k]))
    {
      BlockingIff(t, k, phone, channel);
      if IsBlocking(t, k, phone, channel) { ShowsRowIff(k, t[k], r); }
    }
  }

  /** After an accepted traceback that leaves the only row to find, every lookup it covers reports an active ITG row
      written at that instant. */
  lemma TracebackIsAnswered(db: Db, r: Request, now: int, channel: string, resp: Response)
    requires r.IngestItg? && Apply(db, r, now).answer.Success?
    requires Covers(ParseChannel(OrDefault(r.channel, "voice")).value, channel)
    requires forall k :: Matches(db.rows, k, Normalize(r.phone), channel) ==>
                           k.channel == ParseChannel(OrDefault(r.channel, "voice")).value
    requires Admissible(Apply(db, r, now).db.rows, Normalize(r.phone), channel, resp)
    ensures resp.isDNO && resp.dataset == Some(Itg) && resp.status == "active" && resp.lastUpdated == Some(now)
    ensures resp.channel == if r.channel == "" then "voice" else r.channel
  {
    hide Normalize, ValidPhone;
    var phone, t := Normalize(r.phone), Apply(db, r, now).db.rows;
    var mine := Key(phone, ParseChannel(OrDefault(r.channel, "voice")).value);
    assert t == db.rows[mine := t[mine]];
    assert Matches(t, mine, phone, channel);
    assert Hit(t, phone, channel);
    forall k | Matches(t, k, phone, channel) ensures k == mine {
      assert k == mine || Matches(db.rows, k, phone, channel);
    }
  }

  /** An answer depends only on the rows of its own number. */
  ghost predicate SameNumber(t: Table, t': Table, phone: string) {
    forall k: Key :: k.phone == phone ==> (k in t <==> k in t') && (k in t ==> t[k] == t'[k])
  }

  lemma AdmissibleFrame(t: Table, t': Table, phone: string, channel: string, r: Response)
    requires SameNumber(t, t', phone) && Admissible(t, phone, channel, r)
    ensures Admissible(t', phone, channel, r)
  {
    forall k ensures Matches(t, k, phone, channel) <==> Matches(t', k, phone, channel) {
    }
  }

  /** The request names this number, so it may change its rows; a sync may change any. */
  predicate WritesOnly(r: Request, phone: string) {
    match r
    case AddNumber(p, _, _, _, _, _) => Normalize(p) == phone
    case RemoveNumber(p, _, _) => Normalize(p) == phone
    case IngestItg(p, _, _, _) => Normalize(p) == phone
    case NpacEvent(p, _, _) => Normalize(p) == phone
    case SyncTss => false
  }

  lemma ApplyFrame(db: Db, r: Request, now: int, phone: string)
    requires !r.SyncTss? && !WritesOnly(r, phone)
    ensures SameNumber(db.rows, Apply(db, r, now).db.rows, phone)
  {
    hide Normalize, ParseNumberType, ParseChannel, Covers;
  }

  // --------------------------------------------------------------- coherence

  /** A cached entry of one of the service's own keys, admissible for the table as it is now. */
  ghost predicate CoherentEntry(t: Table, key: string, r: Response) {
    && |key| >= 11 && ValidPhone(key[..10]) && key == CacheKey(key[..10], key[11..])
    && Admissible(t, key[..10], key[11..], r)
  }

  ghost predicate Coherent(t: Table, items: Items<Response>) {
    forall key :: key in items ==> CoherentEntry(t, key, items[key].value)
  }

  lemma CoherentGet(t: Table, items: Items<Response>, phone: string, channel: string, now: int)
    requires Coherent(t, items) && ValidPhone(phone) && TtlCache.Lookup(items, CacheKey(phone, channel), now).Some?
    ensures Admissible(t, phone, channel, TtlCache.Lookup(items, CacheKey(phone, channel), now).value)
  {
    KeyPrefixIff(phone, phone, channel);
    assert CoherentEntry(t, CacheKey(phone, channel), items[CacheKey(phone, channel)].value);
  }

  lemma CoherentSet(t: Table, items: Items<Response>, maxSize: nat, phone: string, channel: string,
                    e: Entry<Response>, items': Items<Response>)
    requires Coherent(t, items) && ValidPhone(phone) && Admissible(t, phone, channel, e.value)
    requires SetEffect(items, maxSize, CacheKey(phone, channel), e, items')
    ensures Coherent(t, items')
  {
    KeyPrefixIff(phone, phone, channel);
    forall key | key in items' ensures CoherentEntry(t, key, items'[key].value) {
      if key != CacheKey(phone, channel) { assert key in items && items[key] == items'[key]; }
    }
  }

  lemma CoherentDrop(t: Table, items: Items<Response>, items': Items<Response>)
    requires Coherent(t, items) && SubItems(items', items)
    ensures Coherent(t, items')
  {
    forall key | key in items' ensures CoherentEntry(t, key, items'[key].value) {
      assert CoherentEntry(t, key, items[key].value);
    }
  }

  /** A write to one number followed by dropping that number's prefix keeps the whole cache in agreement, including the
      voice and text answers that a `both` row supplied. */
  lemma {:induction false} CoherentWrite(t: Table, t': Table, items: Items<Response>, phone: string)
    requires Coherent(t, items)
    requires forall q :: ValidPhone(q) && q != phone ==> SameNumber(t, t', q)
    ensures Coherent(t', WithoutPrefix(items, phone + ":"))
  {
    var items' := WithoutPrefix(items, phone + ":");
    forall key | key in items' ensures CoherentEntry(t', key, items'[key].value) {
      assert CoherentEntry(t, key, items[key].value);
      var q := key[..10];
      if q == phone {
        KeyPrefixIff(phone, q, key[11..]);
        assert false;
      } else {
        AdmissibleFrame(t, t', q, key[11..], items[key].value);
      }
    }
  }

  // --------------------------------------------------------- bulk answers

  /** What one bulk result must be for one input. */
  ghost predicate Answers(t: Table, input: string, channel: string, r: Response) {
    if ValidPhone(Normalize(input)) then Admissible(t, Normalize(input), channel, r)
    else r == ErrorResponse(input, channel)
  }

  /** The positions of `early` that hold `b`, in increasing order. */
  function Positions(early: seq<bool>, b: bool): (r: seq<nat>)
    ensures forall i | 0 <= i < |r| :: r[i] < |early| && early[r[i]] == b
  {
    if early == [] then []
    else
      var n := |early| - 1;
      Positions(early[..n], b) + if early[n] == b then [n] else []
  }

  /** The order of the results: the inputs answered while scanning, then the ones that went to the database. */
  function ResultOrder(early: seq<bool>): (r: seq<nat>)
    ensures forall i | 0 <= i < |r| :: r[i] < |early|
  {
    Positions(early, true) + Positions(early, false)
  }

  lemma {:induction false} PositionsAll(early: seq<bool>, i: nat)
    requires i < |early|
    ensures i in Positions(early, early[i])
  {
    var n := |early| - 1;
    if i < n { PositionsAll(early[..n], i); }
  }

  lemma {:induction false} PositionsIncrease(early: seq<bool>, b: bool)
    ensures forall i, j | 0 <= i < j < |Positions(early, b)| :: Positions(early, b)[i] < Positions(early, b)[j]
  {
    if early != [] { PositionsIncrease(early[..|early| - 1], b); }
  }

  lemma {:induction false} PositionsCount(early: seq<bool>)
    ensures |Positions(early, true)| + |Positions(early, false)| == |early|
  {
    if early != [] { PositionsCount(early[..|early| - 1]); }
  }

  /** That order lists every input position exactly once, and keeps the input order within each of its two parts. */
  lemma ResultOrderIsPermutation(early: seq<bool>)
    ensures |ResultOrder(early)| == |early|
    ensures forall i | 0 <= i < |early| :: i in ResultOrder(early)
    ensures
      var r := ResultOrder(early);
      forall i, j | 0 <= i < j < |early| :: r[i] != r[j] && (early[r[i]] == early[r[j]] ==> r[i] < r[j])
  {
    PositionsIncrease(early, true);
    PositionsIncrease(early, false);
    PositionsCount(early);
    var a, b := Positions(early, true), Positions(early, false);
    forall i | 0 <= i < |early| ensures i in ResultOrder(early) {
      PositionsAll(early, i);
    }
    var r := ResultOrder(early);
    forall i, j | 0 <= i < j < |early| ensures r[i] != r[j] && (early[r[i]] == early[r[j]] ==> r[i] < r[j]) {
      assert r[i] == if i < |a| then a[i] else b[i - |a|];
      assert r[j] == if j < |a| then a[j] else b[j - |a|];
    }
  }

  function CountHits(rs: seq<Response>): nat {
    if rs == [] then 0 else CountHits(rs[..|rs| - 1]) + if rs[|rs| - 1].isDNO then 1 else 0
  }

  /** The query-log entry of one answered lookup. */
  function LogEntry(org: int, r: Response, channel: string): QueryLog.Entry {
    QueryLog.Entry(org, r.phone, if r.isDNO then "hit" else "miss", channel)
  }

  /** One entry for each answered lookup in result order; none for a malformed input, none without an organisation. */
  function LogOf(org: Option<int>, rs: seq<Response>, channel: string): seq<QueryLog.Entry> {
    if rs == [] || org.None? then []
    else
      var n := |rs| - 1;
      LogOf(org, rs[..n], channel) + if rs[n].status == "error" then [] else [LogEntry(org.value, rs[n], channel)]
  }

  /** Of the lookups the service logs, the table accepts exactly those that were not on channel `both`. */
  lemma LoggedIsStorableIff(org: int, r: Response, channel: string)
    requires ValidChannel(channel)
    ensures QueryLog.Storable(LogEntry(org, r, channel)) <==> channel != "both"
  {
  }

  /** The positions of the results that are answered lookups. */
  function AnsweredAt(rs: seq<Response>): (r: seq<nat>)
    ensures forall i | 0 <= i < |r| :: r[i] < |rs|
  {
    Positions(seq(|rs|, i requires 0 <= i < |rs| => rs[i].status != "error"), true)
  }

  /** The log has one entry for each answered lookup, in order, with its number, "hit" or "miss", and the channel asked
      for; nothing without an organisation. */
  ghost predicate LogShows(org: Option<int>, rs: seq<Response>, channel: string, entries: seq<QueryLog.Entry>) {
    if org.None? then entries == []
    else
      && |entries| == |AnsweredAt(rs)|
      && forall m | 0 <= m < |entries| ::
           var r := rs[AnsweredAt(rs)[m]];
           entries[m] == QueryLog.Entry(org.value, r.phone, if r.isDNO then "hit" else "miss", channel)
  }

  lemma {:induction false} LogShowsIs(org: Option<int>, rs: seq<Response>, channel: string)
    ensures LogShows(org, rs, channel, LogOf(org, rs, channel))
  {
    if rs != [] {
      var n := |rs| - 1;
      LogShowsIs(org, rs[..n], channel);
      var flags := seq(|rs|, i requires 0 <= i < |rs| => rs[i].status != "error");
      assert flags[..n] == seq(n, i requires 0 <= i < n => rs[..n][i].status != "error");
      assert AnsweredAt(rs) == AnsweredAt(rs[..n]) + if rs[n].status != "error" then [n] else [];
    }
  }

  lemma AdmissibleShape(t: Table, phone: string, channel: string, r: Response)
    requires Admissible(t, phone, channel, r)
    ensures r.phone == phone && r.status != "error" && (r.isDNO <==> Hit(t, phone, channel))
  {
  }

  lemma LogOfStep(org: Option<int>, rs: seq<Response>, r: Response, channel: string)
    ensures LogOf(org, rs + [r], channel) == LogOf(org, rs, channel) + LogOf(org, [r], channel)
    ensures CountHits(rs + [r]) == CountHits(rs) + if r.isDNO then 1 else 0
  {
    assert (rs + [r])[..|rs|] == rs;
    assert [r][..0] == [];
  }

  // ------------------------------------------------- the two bulk loops' facts

  /** Result `j` answers input `order[j]`. */
  ghost predicate AnswersInOrder(t: Table, inputs: seq<string>, channel: string, order: seq<nat>,
                                 results: seq<Response>) {
    && |results| == |order|
    && forall j | 0 <= j < |results| :: order[j] < |inputs| && Answers(t, inputs[order[j]], channel, results[j])
  }

  /** `toQuery` is the normalised inputs left for the database, `uncached` the same numbers without repetition. */
  ghost predicate Queued(inputs: seq<string>, early: seq<bool>, toQuery: seq<string>, uncached: seq<string>) {
    && |early| <= |inputs|
    && |toQuery| == |Positions(early, false)|
    && (forall j | 0 <= j < |toQuery| ::
          toQuery[j] == Normalize(inputs[Positions(early, false)[j]]) && ValidPhone(toQuery[j]))
    && (forall n :: n in toQuery <==> n in uncached)
    && (forall i, j | 0 <= i < j < |uncached| :: uncached[i] != uncached[j])
  }

  /** What the scanned rows leave in the hit map: a matching row for every queried number that has one. */
  ghost predicate HitsOf(t: Table, phones: seq<string>, channel: string, dnoHits: map<string, Key>) {
    && (forall p :: p in phones && Hit(t, p, channel) ==> p in dnoHits)
    && (forall p :: p in dnoHits ==> Matches(t, dnoHits[p], p, channel))
  }

  lemma PositionsStep(early: seq<bool>, b: bool)
    ensures Positions(early + [b], b) == Positions(early, b) + [|early|]
    ensures Positions(early + [b], !b) == Positions(early, !b)
  {
    assert (early + [b])[..|early|] == early;
  }

  datatype BulkResponse = BulkResponse(results: seq<Response>, total: nat, hits: nat, misses: int)

  /** The bulk promise: one result for each input in the two-part order, each what a single lookup may answer, and
      counters that add up. */
  ghost predicate BulkAnswers(t: Table, inputs: seq<string>, channel: string, early: seq<bool>, b: BulkResponse)
    requires |early| == |inputs|
  {
    && |b.results| == |inputs| && AnswersInOrder(t, inputs, channel, ResultOrder(early), b.results)
    && b.total == |inputs| && b.hits == CountHits(b.results) && b.hits + b.misses == b.total
  }

  /** The answer an input has before the database is asked: an error when malformed, otherwise its live cache entry. */
  function EarlyAnswer(input: string, channel: string, items: Items<Response>, now: int): Option<Response> {
    if !ValidPhone(Normalize(input)) then Some(ErrorResponse(input, channel))
    else TtlCache.Lookup(items, CacheKey(Normalize(input), channel), now)
  }

  /** The inputs answered early are exactly the malformed ones and those with a live cache entry when they are scanned,
      and the results start with those answers. */
  ghost predicate EarlyWhen(inputs: seq<string>, channel: string, items: Items<Response>, clock: nat -> int,
                            early: seq<bool>, results: seq<Response>) {
    && |early| <= |inputs|
    && (forall i | 0 <= i < |early| :: early[i] <==> EarlyAnswer(inputs[i], channel, items, clock(i)).Some?)
    && EarlyResults(inputs, channel, items, clock, Positions(early, true), results)
  }

  ghost predicate EarlyResults(inputs: seq<string>, channel: string, items: Items<Response>, clock: nat -> int,
                               order: seq<nat>, results: seq<Response>) {
    && |order| <= |results|
    && forall j | 0 <= j < |order| ::
         order[j] < |inputs| && EarlyAnswer(inputs[order[j]], channel, items, clock(order[j])) == Some(results[j])
  }

  lemma EarlyResultsStep(inputs: seq<string>, channel: string, items: Items<Response>, clock: nat -> int,
                         order: seq<nat>, results: seq<Response>, i: nat, r: Response)
    requires EarlyResults(inputs, channel, items, clock, order, results) && |results| == |order|
    requires i < |inputs| && EarlyAnswer(inputs[i], channel, items, clock(i)) == Some(r)
    ensures EarlyResults(inputs, channel, items, clock, order + [i], results + [r])
  {
    hide EarlyAnswer;
  }

  lemma EarlyFlagsStep(inputs: seq<string>, channel: string, items: Items<Response>, clock: nat -> int,
                       early: seq<bool>, b: bool)
    requires |early| < |inputs| && (b <==> EarlyAnswer(inputs[|early|], channel, items, clock(|early|)).Some?)
    requires forall i | 0 <= i < |early| :: early[i] <==> EarlyAnswer(inputs[i], channel, items, clock(i)).Some?
    ensures forall i | 0 <= i < |early + [b]| ::
              (early + [b])[i] <==> EarlyAnswer(inputs[i], channel, items, clock(i)).Some?
  {
    hide EarlyAnswer;
  }

  ghost predicate Scanned(t: Table, inputs: seq<string>, channel: string, early: seq<bool>, results: seq<Response>,
                          toQuery: seq<string>, uncached: seq<string>, hits: nat) {
    && AnswersInOrder(t, inputs, channel, Positions(early, true), results) && hits == CountHits(results)
    && Queued(inputs, early, toQuery, uncached)
  }

  lemma ScannedEarly(t: Table, inputs: seq<string>, channel: string, early: seq<bool>, results: seq<Response>,
                     toQuery: seq<string>, uncached: seq<string>, hits: nat, r: Response)
    requires Scanned(t, inputs, channel, early, results, toQuery, uncached, hits) && |early| < |inputs|
    requires Answers(t, inputs[|early|], channel, r)
    ensures Scanned(t, inputs, channel, early + [true], results + [r], toQuery, uncached,
                    if r.isDNO then hits + 1 else hits)
  {
    hide Positions, CountHits, Answers, Normalize, ValidPhone;
    PositionsStep(early, true);
    LogOfStep(None, results, r, channel);
  }

  lemma ScannedLate(t: Table, inputs: seq<string>, channel: string, early: seq<bool>, results: seq<Response>,
                    toQuery: seq<string>, uncached: seq<string>, hits: nat)
    requires Scanned(t, inputs, channel, early, results, toQuery, uncached, hits)
    requires |early| < |inputs| && ValidPhone(Normalize(inputs[|early|]))
    ensures
      var n := Normalize(inputs[|early|]);
      Scanned(t, inputs, channel, early + [false], results, toQuery + [n],
              if n in uncached then uncached else uncached + [n], hits)
  {
    PositionsStep(early, false);
  }

  /** The results while `j` queued inputs have been answered. */
  ghost predicate AnswersUpTo(t: Table, inputs: seq<string>, channel: string, early: seq<bool>, j: nat,
                              results: seq<Response>) {
    && j <= |Positions(early, false)|
    && AnswersInOrder(t, inputs, channel, Positions(early, true) + Positions(early, false)[..j], results)
  }

  lemma AnswersStart(t: Table, inputs: seq<string>, channel: string, early: seq<bool>, results: seq<Response>)
    requires AnswersInOrder(t, inputs, channel, Positions(early, true), results)
    ensures AnswersUpTo(t, inputs, channel, early, 0, results)
  {
    assert Positions(early, true) + Positions(early, false)[..0] == Positions(early, true);
  }

  lemma AnswersNext(t: Table, inputs: seq<string>, channel: string, early: seq<bool>, j: nat, results: seq<Response>,
                    toQuery: seq<string>, uncached: seq<string>, r: Response)
    requires AnswersUpTo(t, inputs, channel, early, j, results) && Queued(inputs, early, toQuery, uncached)
    requires j < |toQuery| && Admissible(t, toQuery[j], channel, r)
    ensures AnswersUpTo(t, inputs, channel, early, j + 1, results + [r])
  {
    var late := Positions(early, false);
    assert Answers(t, inputs[late[j]], channel, r);
    assert Positions(early, true) + late[..j + 1] == Positions(early, true) + late[..j] + [late[j]];
  }

  lemma AnswersEnd(t: Table, inputs: seq<string>, channel: string, early: seq<bool>, j: nat, results: seq<Response>)
    requires AnswersUpTo(t, inputs, channel, early, j, results) && j == |Positions(early, false)|
    ensures AnswersInOrder(t, inputs, channel, ResultOrder(early), results)
  {
    assert Positions(early, false)[..j] == Positions(early, false);
  }

  lemma ScannedNothing(t: Table, inputs: seq<string>, channel: string, items: Items<Response>, clock: nat -> int)
    ensures Scanned(t, inputs, channel, [], [], [], [], 0) && EarlyWhen(inputs, channel, items, clock, [], [])
  {
  }

  lemma LogOfNothing(org: Option<int>, channel: string)
    ensures LogOf(org, [], channel) == []
  {
  }

  lemma ScannedFacts(t: Table, inputs: seq<string>, channel: string, early: seq<bool>, results: seq<Response>,
                     toQuery: seq<string>, uncached: seq<string>, hits: nat)
    requires Scanned(t, inputs, channel, early, results, toQuery, uncached, hits)
    ensures AnswersInOrder(t, inputs, channel, Positions(early, true), results) && hits == CountHits(results)
    ensures Queued(inputs, early, toQuery, uncached) && |toQuery| == |Positions(early, false)|
  {
  }

  lemma QueuedAt(inputs: seq<string>, early: seq<bool>, toQuery: seq<string>, uncached: seq<string>, j: nat)
    requires Queued(inputs, early, toQuery, uncached) && j < |toQuery|
    ensures ValidPhone(toQuery[j]) && toQuery[j] in uncached
    ensures |toQuery| == |Positions(early, false)| && Positions(early, false)[j] < |inputs|
    ensures toQuery[j] == Normalize(inputs[Positions(early, false)[j]])
  {
    assert toQuery[j] in toQuery;
  }

  /** The same in terms of the cache: exactly the malformed inputs and those with an unexpired entry come first, the
      former marked as errors, the latter with the entry's own value. */
  ghost predicate ShowsCached(inputs: seq<string>, channel: string, items: Items<Response>, clock: nat -> int,
                              early: seq<bool>, results: seq<Response>) {
    && |early| <= |inputs| && |Positions(early, true)| <= |results|
    && (forall i | 0 <= i < |early| ::
          early[i] <==>
          var n := Normalize(inputs[i]);
          ValidPhone(n) ==> n + ":" + channel in items && clock(i) <= items[n + ":" + channel].expiresAt)
    && forall j | 0 <= j < |Positions(early, true)| ::
         var i := Positions(early, true)[j];
         var n := Normalize(inputs[i]);
         if ValidPhone(n) then n + ":" + channel in items && results[j] == items[n + ":" + channel].value
         else results[j] == Response(inputs[i], false, None, channel, "error", None)
  }

  lemma EarlyAnswerShows(input: string, channel: string, items: Items<Response>, now: int)
    ensures
      var n, a := Normalize(input), EarlyAnswer(input, channel, items, now);
      && (a.Some? <==> (ValidPhone(n) ==> n + ":" + channel in items && now <= items[n + ":" + channel].expiresAt))
      && (a.Some? ==>
            if ValidPhone(n) then n + ":" + channel in items && a.value == items[n + ":" + channel].value
            else a.value == Response(input, false, None, channel, "error", None))
  {
    hide Normalize, ValidPhone;
  }

  lemma {:induction false} ShowsCachedIs(inputs: seq<string>, channel: string, items: Items<Response>,
                                         clock: nat -> int, early: seq<bool>, results: seq<Response>)
    requires EarlyWhen(inputs, channel, items, clock, early, results)
    ensures ShowsCached(inputs, channel, items, clock, early, results)
  {
    hide EarlyAnswer, Positions, Normalize, ValidPhone;
    forall i | 0 <= i < |early| {
      EarlyAnswerShows(inputs[i], channel, items, clock(i));
    }
    forall j | 0 <= j < |Positions(early, true)| {
      EarlyAnswerShows(inputs[Positions(early, true)[j]], channel, items, clock(Positions(early, true)[j]));
    }
  }

  lemma EarlyNext(inputs: seq<string>, channel: string, items: Items<Response>, clock: nat -> int,
                  early: seq<bool>, results: seq<Response>, answer: Option<Response>)
    requires EarlyWhen(inputs, channel, items, clock, early, results) && |early| < |inputs|
    requires |results| == |Positions(early, true)|
    requires answer == EarlyAnswer(inputs[|early|], channel, items, clock(|early|))
    ensures EarlyWhen(inputs, channel, items, clock, early + [answer.Some?],
                      if answer.Some? then results + [answer.value] else results)
  {
    hide EarlyAnswer, Positions, EarlyResults;
    PositionsStep(early, answer.Some?);
    EarlyFlagsStep(inputs, channel, items, clock, early, answer.Some?);
    if answer.Some? {
      EarlyResultsStep(inputs, channel, items, clock, Positions(early, true), results, |early|, answer.value);
    }
  }

  /** Later answers come after the early ones. */
  lemma EarlyExtends(inputs: seq<string>, channel: string, items: Items<Response>, clock: nat -> int,
                     early: seq<bool>, results: seq<Response>, more: seq<Response>)
    requires EarlyWhen(inputs, channel, items, clock, early, results) && results <= more
    ensures EarlyWhen(inputs, channel, items, clock, early, more)
  {
  }

  lemma ScannedSize(t: Table, inputs: seq<string>, channel: string, early: seq<bool>, results: seq<Response>,
                    toQuery: seq<string>, uncached: seq<string>, hits: nat)
    requires Scanned(t, inputs, channel, early, results, toQuery, uncached, hits)
    ensures |results| == |Positions(early, true)|
  {
  }

  /** The bulk results in the caller's terms: each valid input's result is what a lookup of it may report, each
      malformed input's says so. */
  ghost predicate BulkReports(t: Table, inputs: seq<string>, channel: string, early: seq<bool>,
                              results: seq<Response>)
  {
    && |results| == |ResultOrder(early)| && |early| <= |inputs|
    && forall j | 0 <= j < |results| ::
         var input := inputs[ResultOrder(early)[j]];
         if ValidPhone(Normalize(input)) then Reports(t, Normalize(input), channel, results[j])
         else results[j] == Response(input, false, None, channel, "error", None)
  }

  lemma BulkReportsIs(t: Table, inputs: seq<string>, channel: string, early: seq<bool>, results: seq<Response>)
    requires AnswersInOrder(t, inputs, channel, ResultOrder(early), results) && |early| <= |inputs|
    ensures BulkReports(t, inputs, channel, early, results)
  {
    hide Admissible, Reports, Normalize, ValidPhone, ResultOrder;
    forall j | 0 <= j < |results|
      ensures
        var input := inputs[ResultOrder(early)[j]];
        if ValidPhone(Normalize(input)) then Reports(t, Normalize(input), channel, results[j])
        else results[j] == Response(input, false, None, channel, "error", None)
    {
      AdmissibleIff(t, Normalize(inputs[ResultOrder(early)[j]]), channel, results[j]);
    }
  }

  lemma BulkDone(t: Table, inputs: seq<string>, channel: string, early: seq<bool>, b: BulkResponse)
    requires |early| == |inputs| && AnswersInOrder(t, inputs, channel, ResultOrder(early), b.results)
    requires b.total == |inputs| && b.hits == CountHits(b.results) && b.misses == b.total - b.hits
    ensures BulkAnswers(t, inputs, channel, early, b)
  {
    PositionsCount(early);
  }
}
