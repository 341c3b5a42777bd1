/** The traffic analysis (internal/service/features.go, AnalyzeTraffic). */
module Analyzer {
  import opened Wrappers
  import opened Phone
  import opened NumberTable
  import opened Collections
  import opened Tally
  import opened QueryBuilders
  import opened Lookup
  import opened Services

  datatype HitInfo = HitInfo(dataset: Dataset, threat: Option<string>)
  datatype Spoofed = Spoofed(phone: string, dataset: Dataset, threat: string, count: nat)
  datatype Report = Report(total: nat, hits: nat, misses: nat, byDataset: map<Dataset, nat>, byThreat: map<string, nat>,
                           top: seq<Spoofed>, estBlockedPerDay: nat)

  type HitMap = map<string, HitInfo>

  const BATCH := 500
  const TOP := 20

  // -------------------------------------------------- what each record says

  /** The number a record counts for. */
  function CallerOf(record: string): Option<string> {
    if ValidPhone(Normalize(record)) then Some(Normalize(record)) else None
  }

  function HitOf(hits: HitMap, record: string): Option<string> {
    if Normalize(record) in hits then Some(Normalize(record)) else None
  }

  function DatasetOf(hits: HitMap, record: string): Option<Dataset> {
    if Normalize(record) in hits then Some(hits[Normalize(record)].dataset) else None
  }

  function ThreatOf(hits: HitMap, record: string): Option<string> {
    if Normalize(record) in hits && hits[Normalize(record)].threat != Some("") then hits[Normalize(record)].threat
    else None
  }

  ghost function Callers(records: seq<string>): (r: seq<Option<string>>)
    ensures |r| == |records| && forall i | 0 <= i < |r| :: r[i] == CallerOf(records[i])
  {
    seq(|records|, i requires 0 <= i < |records| => CallerOf(records[i]))
  }

  ghost function HitNumbers(hits: HitMap, records: seq<string>): (r: seq<Option<string>>)
    ensures |r| == |records| && forall i | 0 <= i < |r| :: r[i] == HitOf(hits, records[i])
  {
    seq(|records|, i requires 0 <= i < |records| => HitOf(hits, records[i]))
  }

  ghost function HitDatasets(hits: HitMap, records: seq<string>): (r: seq<Option<Dataset>>)
    ensures |r| == |records| && forall i | 0 <= i < |r| :: r[i] == DatasetOf(hits, records[i])
  {
    seq(|records|, i requires 0 <= i < |records| => DatasetOf(hits, records[i]))
  }

  ghost function HitThreats(hits: HitMap, records: seq<string>): (r: seq<Option<string>>)
    ensures |r| == |records| && forall i | 0 <= i < |r| :: r[i] == ThreatOf(hits, records[i])
  {
    seq(|records|, i requires 0 <= i < |records| => ThreatOf(hits, records[i]))
  }

  // ------------------------------------------------------- the batched lookup

  /** The hit map of one lookup of all the numbers: those with a matching row, each with the details of one such row. */
  ghost predicate HitsExactly(t: Table, numbers: set<string>, channel: string, hits: HitMap) {
    && (forall n :: n in hits <==> n in numbers && Hit(t, n, channel))
    && (forall n :: n in hits ==>
          exists k :: Matches(t, k, n, channel) && hits[n] == HitInfo(t[k].dataset, t[k].threat))
  }

  /** The b-th batch. */
  function Batch(unique: seq<string>, b: nat): seq<string> {
    unique[Least(b * BATCH, |unique|)..Least((b + 1) * BATCH, |unique|)]
  }

  /** What the batches before position `i` hold. */
  function Asked(unique: seq<string>, i: nat): seq<string> {
    unique[..Least(i, |unique|)]
  }

  /** One query for each batch, each asking for exactly its batch. */
  ghost predicate AsksInBatches(queries: seq<Query>, unique: seq<string>, channel: string) {
    forall b: nat | b < |queries| :: Means(queries[b], InPieces(ANALYZER_SELECT, Batch(unique, b), channel))
  }

  /** `hits[phone] = info` over the rows of one batch. */
  method ScanBatch(db: Database, hits0: HitMap, ghost before: set<string>, batch: seq<string>, channel: string)
    returns (hits: HitMap)
    requires HitsExactly(db.rows, before, channel, hits0)
    ensures HitsExactly(db.rows, before + Elements(batch), channel, hits)
  {
    var found := db.SelectActive(batch, channel);
    hits := hits0;
    for i := 0 to |found|
      invariant forall n :: n in hits <==> n in hits0 || (exists j | 0 <= j < i :: found[j].phone == n)
      invariant forall n :: n in hits ==>
                  exists k :: Matches(db.rows, k, n, channel)
                              && hits[n] == HitInfo(db.rows[k].dataset, db.rows[k].threat)
    {
      var row := db.rows[found[i]];
      hits := hits[found[i].phone := HitInfo(row.dataset, row.threat)];
    }
    forall n ensures n in hits <==> n in before + Elements(batch) && Hit(db.rows, n, channel) {
      if n in batch && Hit(db.rows, n, channel) {
        var k :| Matches(db.rows, k, n, channel);
        assert k in found;
      }
    }
  }

  method LookupBatches(db: Database, unique: seq<string>, channel: string) returns (hits: HitMap, queries: seq<Query>)
    ensures HitsExactly(db.rows, Elements(unique), channel, hits)
    ensures AsksInBatches(queries, unique, channel)
    ensures |unique| <= |queries| * 500 < |unique| + 500
  {
    hide *;
    hits, queries := map[], [];
    BatchSize();
    NothingAsked(db.rows, unique, channel);
    var i := 0;
    while i < |unique|
      invariant i == |queries| * BATCH && i < |unique| + BATCH
      invariant HitsExactly(db.rows, Elements(Asked(unique, i)), channel, hits)
      invariant AsksInBatches(queries, unique, channel)
    {
      var end := if i + BATCH > |unique| then |unique| else i + BATCH;
      var batch := unique[i..end];
      BatchIs(unique, |queries|, i, end);
      var q := BuildInQuery(ANALYZER_SELECT, batch, channel);
      AsksOneMore(queries, unique, channel, q);
      queries := queries + [q];
      hits := ScanBatch(db, hits, Elements(Asked(unique, i)), batch, channel);
      i := i + BATCH;
    }
    LeastAt(i, unique);
  }

  lemma BatchSize()
    ensures BATCH == 500
  {
  }

  lemma NothingAsked(t: Table, unique: seq<string>, channel: string)
    ensures HitsExactly(t, Elements(Asked(unique, 0)), channel, map[]) && AsksInBatches([], unique, channel)
  {
  }

  lemma BatchIs(unique: seq<string>, b: nat, i: nat, end: nat)
    requires i == b * BATCH && i < |unique| && end == if i + BATCH > |unique| then |unique| else i + BATCH
    ensures unique[i..end] == Batch(unique, b) && unique[i..end] != []
    ensures Elements(Asked(unique, i)) + Elements(unique[i..end]) == Elements(Asked(unique, i + BATCH))
  {
    assert (b + 1) * BATCH == i + BATCH;
    assert unique[..end] == unique[..i] + unique[i..end];
  }

  lemma AsksOneMore(queries: seq<Query>, unique: seq<string>, channel: string, q: Query)
    requires AsksInBatches(queries, unique, channel)
    requires Means(q, InPieces(ANALYZER_SELECT, Batch(unique, |queries|), channel))
    ensures AsksInBatches(queries + [q], unique, channel)
  {
    hide Means, InPieces, Batch;
  }

  lemma LeastAt(i: nat, unique: seq<string>)
    ensures i >= |unique| ==> Asked(unique, i) == unique
  {
  }

  // ------------------------------------------------------------- the report

  /** `numberCounts[n]++` for every record with a valid number. */
  method CountNumbers(records: seq<string>) returns (numberCounts: map<string, nat>)
    ensures Counts(numberCounts, Callers(records))
  {
    hide *;
    numberCounts := map[];
    ghost var labels := [];
    NoCounts<string>();
    for i := 0 to |records|
      invariant |labels| == i && forall j | 0 <= j < i :: labels[j] == CallerOf(records[j])
      invariant Counts(numberCounts, labels)
    {
      var caller := CallerOf(records[i]);
      BumpCounts(numberCounts, labels, caller);
      numberCounts := Bump(numberCounts, caller);
      labels := labels + [caller];
    }
    assert labels == Callers(records);
  }

  /** The spoofed numbers while some records have been read: the count adds `numberCounts[n]` once for each of them. */
  ghost predicate SpoofedSoFar(m: map<string, Spoofed>, labels: seq<Option<string>>, hits: HitMap,
                               counts: map<string, nat>) {
    && (forall n :: n in m <==> Some(n) in labels)
    && (forall n :: n in m && n in hits && n in counts ==>
          m[n] == Spoofed(n, hits[n].dataset, if hits[n].threat.Some? then hits[n].threat.value else "",
                          Times(labels, n) * counts[n]))
  }

  function Spoof(m: map<string, Spoofed>, n: string, info: HitInfo, count: nat): map<string, Spoofed> {
    var entry := if n in m then m[n]
                 else Spoofed(n, info.dataset, if info.threat.Some? then info.threat.value else "", 0);
    m[n := entry.(count := entry.count + count)]
  }

  lemma SpoofStep(m: map<string, Spoofed>, labels: seq<Option<string>>, hits: HitMap, counts: map<string, nat>,
                  n: string)
    requires SpoofedSoFar(m, labels, hits, counts) && n in hits && n in counts
    ensures SpoofedSoFar(Spoof(m, n, hits[n], counts[n]), labels + [Some(n)], hits, counts)
  {
    hide Times;
    var m', more := Spoof(m, n, hits[n], counts[n]), labels + [Some(n)];
    TimesNever(labels, n);
    TimesStep(labels, Some(n), n);
    assert (Times(labels, n) + 1) * counts[n] == Times(labels, n) * counts[n] + counts[n];
    forall l | l in m' && l in hits && l in counts && l != n ensures Times(more, l) == Times(labels, l) {
      TimesStep(labels, Some(n), l);
    }
  }

  lemma SpoofSkip(m: map<string, Spoofed>, labels: seq<Option<string>>, hits: HitMap, counts: map<string, nat>)
    requires SpoofedSoFar(m, labels, hits, counts)
    ensures SpoofedSoFar(m, labels + [None], hits, counts)
  {
    hide Times;
    forall l ensures Times(labels + [None], l) == Times(labels, l) {
      TimesStep(labels, None, l);
    }
  }

  /** Every number with a hit was counted, once for each record that normalises to it. */
  ghost predicate CountsCover(records: seq<string>, hits: HitMap, counts: map<string, nat>) {
    Counts(counts, Callers(records)) && forall n :: n in hits ==> n in counts
  }

  /** The report fields while `labels` have been read. */
  ghost predicate Reported(records: seq<string>, hits: HitMap, r: Report) {
    && r.total == |records| && r.hits == |Marked(HitNumbers(hits, records))| && r.hits + r.misses == r.total
    && Counts(r.byDataset, HitDatasets(hits, records)) && Counts(r.byThreat, HitThreats(hits, records))
  }

  function Record(hits: HitMap, r: Report, record: string): Report {
    var n := Normalize(record);
    if n in hits then
      r.(total := r.total + 1, hits := r.hits + 1, byDataset := Bump(r.byDataset, Some(hits[n].dataset)),
         byThreat := if hits[n].threat.Some? && hits[n].threat.value != "" then Bump(r.byThreat, hits[n].threat)
                     else r.byThreat)
    else r.(total := r.total + 1, misses := r.misses + 1)
  }

  lemma ReportStep(records: seq<string>, hits: HitMap, r: Report, record: string)
    requires Reported(records, hits, r)
    ensures Reported(records + [record], hits, Record(hits, r, record))
  {
    hide Counts, Marked;
    var more := records + [record];
    assert HitNumbers(hits, more) == HitNumbers(hits, records) + [HitOf(hits, record)];
    assert HitDatasets(hits, more) == HitDatasets(hits, records) + [DatasetOf(hits, record)];
    assert HitThreats(hits, more) == HitThreats(hits, records) + [ThreatOf(hits, record)];
    MarkedStep(HitNumbers(hits, records), HitOf(hits, record));
    BumpCounts(r.byDataset, HitDatasets(hits, records), DatasetOf(hits, record));
    BumpCounts(r.byThreat, HitThreats(hits, records), ThreatOf(hits, record));
  }

  lemma HitNumbersStep(hits: HitMap, records: seq<string>, record: string)
    ensures HitNumbers(hits, records + [record]) == HitNumbers(hits, records) + [HitOf(hits, record)]
  {
  }

  lemma RecordsPrefix(records: seq<string>, i: nat)
    requires i < |records|
    ensures records[..i + 1] == records[..i] + [records[i]]
  {
  }

  lemma NothingReported(hits: HitMap, counts: map<string, nat>)
    ensures Reported([], hits, Report(0, 0, 0, map[], map[], [], 0))
    ensures SpoofedSoFar(map[], HitNumbers(hits, []), hits, counts)
  {
    NoCounts<string>();
    NoCounts<Dataset>();
  }

  /** The loop over the records: counters, maps, and the spoofed numbers. */
  method ReadRecords(records: seq<string>, hits: HitMap, numberCounts: map<string, nat>)
    returns (r: Report, spoofed: map<string, Spoofed>)
    requires CountsCover(records, hits, numberCounts)
    ensures Reported(records, hits, r)
    ensures SpoofedSoFar(spoofed, HitNumbers(hits, records), hits, numberCounts)
  {
    hide *;
    r := Report(0, 0, 0, map[], map[], [], 0);
    spoofed := map[];
    NothingReported(hits, numberCounts);
    Covered(records, hits, numberCounts);
    assert records[..0] == [];
    for i := 0 to |records|
      invariant Reported(records[..i], hits, r)
      invariant SpoofedSoFar(spoofed, HitNumbers(hits, records[..i]), hits, numberCounts)
    {
      var n := Normalize(records[i]);
      ReportStep(records[..i], hits, r, records[i]);
      HitNumbersStep(hits, records[..i], records[i]);
      HitOfIs(hits, records[i]);
      RecordsPrefix(records, i);
      r := Record(hits, r, records[i]);
      if n in hits {
        SpoofStep(spoofed, HitNumbers(hits, records[..i]), hits, numberCounts, n);
        spoofed := Spoof(spoofed, n, hits[n], numberCounts[n]);
      } else {
        SpoofSkip(spoofed, HitNumbers(hits, records[..i]), hits, numberCounts);
      }
    }
    assert records[..|records|] == records;
  }

  lemma Covered(records: seq<string>, hits: HitMap, counts: map<string, nat>)
    requires CountsCover(records, hits, counts)
    ensures forall n :: n in hits ==> n in counts
  {
  }

  lemma HitOfIs(hits: HitMap, record: string)
    ensures HitOf(hits, record) == if Normalize(record) in hits then Some(Normalize(record)) else None
  {
  }

  /** What the report says of one spoofed number. The count is the square of the number of records, as the code adds
      `numberCounts[n]` for each of them. */
  ghost predicate TopEntry(records: seq<string>, hits: HitMap, e: Spoofed) {
    && e.phone in hits && e.dataset == hits[e.phone].dataset
    && e.threat == (if hits[e.phone].threat.Some? then hits[e.phone].threat.value else "")
    && e.count == Times(Callers(records), e.phone) * Times(Callers(records), e.phone)
  }

  /** The list the report carries: at most 20 of the spoofed numbers, each once. */
  ghost predicate TopOf(records: seq<string>, hits: HitMap, top: seq<Spoofed>) {
    && |top| == Least(20, |hits|)
    && (forall i, j | 0 <= i < j < |top| :: top[i].phone != top[j].phone)
    && (forall i | 0 <= i < |top| :: TopEntry(records, hits, top[i]))
  }

  /** A number with a hit occurs among the hit records as often as among all valid ones. */
  lemma SameTimes(records: seq<string>, hits: HitMap, n: string)
    requires n in hits && ValidPhone(n)
    ensures Times(HitNumbers(hits, records), n) == Times(Callers(records), n)
    ensures Some(n) in HitNumbers(hits, records) <==> Some(n) in Callers(records)
  {
    assert Holding(HitNumbers(hits, records), n) == Holding(Callers(records), n);
    TimesNever(HitNumbers(hits, records), n);
    TimesNever(Callers(records), n);
  }

  lemma {:induction false} SpoofedIs(spoofed: map<string, Spoofed>, records: seq<string>, hits: HitMap,
                                     counts: map<string, nat>)
    requires CountsCover(records, hits, counts)
    requires SpoofedSoFar(spoofed, HitNumbers(hits, records), hits, counts)
    ensures spoofed.Keys == hits.Keys && |spoofed| == |hits|
    ensures forall n :: n in spoofed ==> spoofed[n].phone == n && TopEntry(records, hits, spoofed[n])
  {
    hide Times, Callers, HitNumbers, Normalize, ValidPhone;
    CallersValid(records);
    HitNumbersHit(hits, records);
    forall n | n in hits
      ensures n in spoofed && spoofed[n].phone == n && TopEntry(records, hits, spoofed[n])
    {
      assert n in counts && Some(n) in Callers(records);
      SameTimes(records, hits, n);
    }
    assert spoofed.Keys == hits.Keys;
    assert |spoofed.Keys| == |hits.Keys|;
  }

  /** Up to 20 entries of the spoofed map, in the order its iteration happens to take. */
  method TopSpoofed(spoofed: map<string, Spoofed>, ghost records: seq<string>, ghost hits: HitMap)
    returns (top: seq<Spoofed>)
    requires |spoofed| == |hits|
    requires forall n :: n in spoofed ==> spoofed[n].phone == n && TopEntry(records, hits, spoofed[n])
    ensures TopOf(records, hits, top)
  {
    hide TopEntry;
    var keys := ListOf(spoofed.Keys);
    top := [];
    for i := 0 to Least(TOP, |keys|)
      invariant |top| == i
      invariant forall j | 0 <= j < i :: keys[j] in spoofed && top[j] == spoofed[keys[j]]
    {
      assert keys[i] in Elements(keys);
      top := top + [spoofed[keys[i]]];
    }
  }

  lemma CallersValid(records: seq<string>)
    ensures forall n :: Some(n) in Callers(records) ==> ValidPhone(n)
  {
  }

  lemma HitNumbersHit(hits: HitMap, records: seq<string>)
    ensures forall n :: Some(n) in HitNumbers(hits, records) ==> n in hits
  {
  }

  ghost function CallerSet(records: seq<string>): set<string> {
    set i | 0 <= i < |records| && ValidPhone(Normalize(records[i])) :: Normalize(records[i])
  }

  /** What an analysis reports, for some choice of the row behind each hit. */
  ghost predicate Analyzed(t: Table, records: seq<string>, channel: string, hits: HitMap, r: Report) {
    && HitsExactly(t, CallerSet(records), channel, hits) && Reported(records, hits, r) && TopOf(records, hits, r.top)
    && r.estBlockedPerDay == r.hits
  }

  method AnalyzeTraffic(db: Database, records: seq<string>, channelArg: string)
    returns (r: Report, queries: seq<Query>, ghost hits: HitMap, ghost unique: seq<string>)
    ensures Analyzed(db.rows, records, OrDefault(channelArg, "voice"), hits, r)
    ensures r.hits == |BlockedRecords(db.rows, records, OrDefault(channelArg, "voice"))|
    ensures r.misses == |records| - r.hits
    ensures CountOf(r.byDataset, Auto) + CountOf(r.byDataset, Subscriber) + CountOf(r.byDataset, Itg)
            + CountOf(r.byDataset, TssRegistry) == r.hits
    ensures ShowsDatasets(records, hits, r.byDataset) && ShowsThreats(records, hits, r.byThreat)
    ensures Elements(unique) == CallerSet(records) && |unique| == |CallerSet(records)|
    ensures AsksInBatches(queries, unique, OrDefault(channelArg, "voice"))
    ensures |unique| <= |queries| * 500 < |unique| + 500
  {
    hide *;
    var channel := OrDefault(channelArg, "voice");
    var numberCounts := CountNumbers(records);
    var numbers := ListOf(numberCounts.Keys);
    CountedAre(records, numberCounts);
    var found;
    found, queries := LookupBatches(db, numbers, channel);
    HitsCounted(db.rows, records, channel, found, numberCounts);
    var spoofed;
    r, spoofed := ReadRecords(records, found, numberCounts);
    SpoofedIs(spoofed, records, found, numberCounts);
    var top := TopSpoofed(spoofed, records, found);
    Finished(db.rows, records, channel, found, r, top);
    r := r.(top := top, estBlockedPerDay := r.hits);
    HitsAreBlocked(db.rows, records, channel, found, r);
    DatasetsAddUp(db.rows, records, channel, found, r);
    DatasetsAre(db.rows, records, channel, found, r);
    ThreatsAre(db.rows, records, channel, found, r);
    hits, unique := found, numbers;
  }

  lemma CountedAre(records: seq<string>, counts: map<string, nat>)
    requires Counts(counts, Callers(records))
    ensures counts.Keys == CallerSet(records) && |counts| == |CallerSet(records)|
  {
    hide Times;
    forall n ensures n in CallerSet(records) <==> Some(n) in Callers(records) {
      if n in CallerSet(records) {
        var i :| 0 <= i < |records| && ValidPhone(Normalize(records[i])) && n == Normalize(records[i]);
        assert Callers(records)[i] == Some(n);
      }
    }
    assert counts.Keys == CallerSet(records);
    assert |counts| == |counts.Keys|;
  }

  lemma HitsCounted(t: Table, records: seq<string>, channel: string, hits: HitMap, counts: map<string, nat>)
    requires HitsExactly(t, CallerSet(records), channel, hits)
    requires Counts(counts, Callers(records)) && counts.Keys == CallerSet(records)
    ensures CountsCover(records, hits, counts)
  {
    hide Counts, Callers;
    assert forall n :: n in hits ==> n in counts.Keys;
  }

  lemma Finished(t: Table, records: seq<string>, channel: string, hits: HitMap, r: Report, top: seq<Spoofed>)
    requires HitsExactly(t, CallerSet(records), channel, hits) && Reported(records, hits, r)
    requires TopOf(records, hits, top)
    ensures Analyzed(t, records, channel, hits, r.(top := top, estBlockedPerDay := r.hits))
  {
    hide HitsExactly, TopOf, Counts, Marked;
  }

  // ---------------------------------------------------- what the report means

  /** A lookup of this record's number, on its own and without a cache, is a hit. */
  ghost predicate Blocked(t: Table, record: string, channel: string) {
    ValidPhone(Normalize(record)) && Hit(t, Normalize(record), channel)
  }

  ghost function BlockedRecords(t: Table, records: seq<string>, channel: string): set<int> {
    set i | 0 <= i < |records| && Blocked(t, records[i], channel)
  }

  lemma BlockedIsAnswered(t: Table, record: string, channel: string, resp: Response)
    requires Answers(t, record, channel, resp)
    ensures resp.isDNO <==> Blocked(t, record, channel)
  {
    if ValidPhone(Normalize(record)) { AdmissibleShape(t, Normalize(record), channel, resp); }
  }

  /** Batched analysis equals direct analysis: the hits are the records whose own uncached lookup hits. */
  lemma {:induction false} HitsAreBlocked(t: Table, records: seq<string>, channel: string, hits: HitMap, r: Report)
    requires Analyzed(t, records, channel, hits, r)
    ensures r.hits == |BlockedRecords(t, records, channel)| && r.misses == |records| - r.hits
  {
    hide Hit, Normalize, ValidPhone, TopOf, Counts;
    forall i | 0 <= i < |records| ensures HitOf(hits, records[i]).Some? <==> Blocked(t, records[i], channel) {
      if ValidPhone(Normalize(records[i])) {
        assert Normalize(records[i]) in CallerSet(records);
      } else {
        assert Normalize(records[i]) !in CallerSet(records);
      }
    }
    assert Marked(HitNumbers(hits, records)) == BlockedRecords(t, records, channel);
  }

  function CountOf<L(==)>(m: map<L, nat>, l: L): nat {
    if l in m then m[l] else 0
  }

  /** The dataset counts add up to the hits. */
  lemma {:induction false} DatasetsAddUp(t: Table, records: seq<string>, channel: string, hits: HitMap, r: Report)
    requires Analyzed(t, records, channel, hits, r)
    ensures CountOf(r.byDataset, Auto) + CountOf(r.byDataset, Subscriber) + CountOf(r.byDataset, Itg)
            + CountOf(r.byDataset, TssRegistry) == r.hits
  {
    hide HitsExactly, TopOf, Normalize;
    var labels := HitDatasets(hits, records);
    forall d: Dataset ensures CountOf(r.byDataset, d) == |Holding(labels, d)| {
      TimesNever(labels, d);
    }
    SameMarks(HitNumbers(hits, records), labels);
    FourDatasets(labels);
  }

  lemma FourDatasets(labels: seq<Option<Dataset>>)
    ensures |Holding(labels, Auto)| + |Holding(labels, Subscriber)| + |Holding(labels, Itg)|
            + |Holding(labels, TssRegistry)| == |Marked(labels)|
  {
    var a, b := Holding(labels, Auto), Holding(labels, Subscriber);
    var c, d := Holding(labels, Itg), Holding(labels, TssRegistry);
    forall i | i in Marked(labels) ensures i in a + b + c + d {
      match labels[i].value case Auto => case Subscriber => case Itg => case TssRegistry =>
    }
    assert Marked(labels) == a + b + c + d;
  }

  // ------------------------------------------------ what the two maps count

  /** The records whose number hit a row of this dataset. */
  ghost function WithDataset(records: seq<string>, hits: HitMap, d: Dataset): set<int> {
    set i | 0 <= i < |records| && Normalize(records[i]) in hits && hits[Normalize(records[i])].dataset == d
  }

  /** The records whose number hit a row with this threat category. */
  ghost function WithThreat(records: seq<string>, hits: HitMap, c: string): set<int> {
    set i | 0 <= i < |records| && Normalize(records[i]) in hits && hits[Normalize(records[i])].threat == Some(c)
  }

  /** The records whose number hit a row with some threat category that is not empty. */
  ghost function WithAnyThreat(records: seq<string>, hits: HitMap): set<int> {
    set i | 0 <= i < |records| && Normalize(records[i]) in hits
            && hits[Normalize(records[i])].threat.Some? && hits[Normalize(records[i])].threat.value != ""
  }

  ghost predicate ShowsDatasets(records: seq<string>, hits: HitMap, m: map<Dataset, nat>) {
    && (forall d :: d in m <==> WithDataset(records, hits, d) != {})
    && forall d :: d in m ==> m[d] == |WithDataset(records, hits, d)|
  }

  /** Each nonempty category that occurs, with the number of its records, and no other; together they are the records
      with a category. */
  ghost predicate ShowsThreats(records: seq<string>, hits: HitMap, m: map<string, nat>) {
    && (forall c :: c in m <==> c != "" && WithThreat(records, hits, c) != {})
    && (forall c :: c in m ==> m[c] == |WithThreat(records, hits, c)|)
    && SumOf(m) == |WithAnyThreat(records, hits)|
  }

  lemma {:induction false} DatasetsAre(t: Table, records: seq<string>, channel: string, hits: HitMap, r: Report)
    requires Analyzed(t, records, channel, hits, r)
    ensures ShowsDatasets(records, hits, r.byDataset)
  {
    hide HitsExactly, TopOf, Normalize;
    var labels := HitDatasets(hits, records);
    forall d
      ensures Holding(labels, d) == WithDataset(records, hits, d) && (Some(d) in labels <==> Times(labels, d) != 0)
    {
      TimesNever(labels, d);
    }
  }

  lemma {:induction false} ThreatHolds(records: seq<string>, hits: HitMap, c: string)
    ensures Holding(HitThreats(hits, records), c) == if c == "" then {} else WithThreat(records, hits, c)
    ensures Some(c) in HitThreats(hits, records) <==> c != "" && WithThreat(records, hits, c) != {}
  {
    hide Normalize;
    var labels := HitThreats(hits, records);
    TimesNever(labels, c);
  }

  lemma {:induction false} ThreatMarked(records: seq<string>, hits: HitMap)
    ensures Marked(HitThreats(hits, records)) == WithAnyThreat(records, hits)
  {
    hide Normalize;
  }

  lemma {:induction false} ThreatsAre(t: Table, records: seq<string>, channel: string, hits: HitMap, r: Report)
    requires Analyzed(t, records, channel, hits, r)
    ensures ShowsThreats(records, hits, r.byThreat)
  {
    hide HitsExactly, TopOf, Normalize, HitThreats, HitDatasets, HitNumbers, Holding, WithThreat, WithAnyThreat, Marked;
    forall c
      ensures Holding(HitThreats(hits, records), c) == if c == "" then {} else WithThreat(records, hits, c)
      ensures Some(c) in HitThreats(hits, records) <==> c != "" && WithThreat(records, hits, c) != {}
    {
      ThreatHolds(records, hits, c);
    }
    SumIsMarked(r.byThreat, HitThreats(hits, records));
    ThreatMarked(records, hits);
  }

  /** The reported count of a spoofed number is the number of its records exactly when it has one record. */
  lemma SpoofedCountIff(t: Table, records: seq<string>, channel: string, hits: HitMap, r: Report)
    requires Analyzed(t, records, channel, hits, r)
    ensures forall i | 0 <= i < |r.top| ::
              r.top[i].count == Times(Callers(records), r.top[i].phone) <==>
              Times(Callers(records), r.top[i].phone) == 1
  {
    hide HitsExactly, Reported, Times, Callers;
    forall i | 0 <= i < |r.top|
      ensures r.top[i].count == Times(Callers(records), r.top[i].phone) <==>
              Times(Callers(records), r.top[i].phone) == 1
    {
      assert TopEntry(records, hits, r.top[i]);
      HitIsCounted(t, records, channel, hits, r.top[i].phone);
      SquareIsSelfIff(Times(Callers(records), r.top[i].phone));
    }
  }

  lemma SquareIsSelfIff(k: nat)
    ensures k * k == k <==> k <= 1
  {
    if k > 1 { assert k * k > k; }
  }

  lemma HitIsCounted(t: Table, records: seq<string>, channel: string, hits: HitMap, n: string)
    requires HitsExactly(t, CallerSet(records), channel, hits) && n in hits
    ensures Times(Callers(records), n) != 0
  {
    hide Hit, Normalize;
    var i :| 0 <= i < |records| && ValidPhone(Normalize(records[i])) && n == Normalize(records[i]);
    assert Callers(records)[i] == Some(n);
    TimesNever(Callers(records), n);
  }

  /** The list holds every spoofed number exactly when there are at most 20 of them. */
  lemma {:induction false} TopIsCompleteIff(t: Table, records: seq<string>, channel: string, hits: HitMap, r: Report)
    requires Analyzed(t, records, channel, hits, r)
    ensures (forall n :: n in hits ==> exists i :: 0 <= i < |r.top| && r.top[i].phone == n) <==> |hits| <= 20
  {
    hide HitsExactly, Reported, TopEntry;
    var phones := set i | 0 <= i < |r.top| :: r.top[i].phone;
    TopPhones(r.top);
    assert phones <= hits.Keys by { hide *; TopInHits(records, hits, r.top); }
    assert |hits| == |hits.Keys|;
    if |hits| <= 20 {
      SubsetSize(phones, hits.Keys);
    } else {
      var n := SmallerMisses(phones, hits.Keys);
      assert n in hits && !exists i :: 0 <= i < |r.top| && r.top[i].phone == n;
    }
  }

  lemma TopInHits(records: seq<string>, hits: HitMap, top: seq<Spoofed>)
    requires TopOf(records, hits, top)
    ensures forall i | 0 <= i < |top| :: top[i].phone in hits
  {
    forall i | 0 <= i < |top| ensures top[i].phone in hits { assert TopEntry(records, hits, top[i]); }
  }

  lemma {:induction false} TopPhones(top: seq<Spoofed>)
    requires forall i, j | 0 <= i < j < |top| :: top[i].phone != top[j].phone
    ensures |set i | 0 <= i < |top| :: top[i].phone| == |top|
  {
    if top != [] {
      var n := |top| - 1;
      TopPhones(top[..n]);
      assert (set i | 0 <= i < |top| :: top[i].phone) == (set i | 0 <= i < n :: top[..n][i].phone) + {top[n].phone};
    }
  }

  lemma SmallerMisses(a: set<string>, b: set<string>) returns (n: string)
    requires |a| < |b|
    ensures n in b && n !in a
  {
    if b <= a { SubsetSize(b, a); }
    n :| n in b && n !in a;
  }

  /** A number whose only matching row a traceback has just written is reported with the traceback's own threat. */
  lemma TracebackIsReported(db: Db, r: Request, now: int, numbers: set<string>, channel: string, hits: HitMap)
    requires r.IngestItg? && Apply(db, r, now).answer.Success?
    requires Covers(ParseChannel(OrDefault(r.channel, "voice")).value, channel)
    requires HitsExactly(Apply(db, r, now).db.rows, numbers, channel, hits) && Normalize(r.phone) in numbers
    requires forall k :: Matches(db.rows, k, Normalize(r.phone), channel) ==>
                           k.channel == ParseChannel(OrDefault(r.channel, "voice")).value
    ensures Normalize(r.phone) in hits && hits[Normalize(r.phone)] == HitInfo(Itg, Some(r.threat))
  {
    hide Normalize, ValidPhone;
    var phone, t := Normalize(r.phone), Apply(db, r, now).db.rows;
    var mine := Key(phone, ParseChannel(OrDefault(r.channel, "voice")).value);
    assert t == db.rows[mine := t[mine]];
    assert Matches(t, mine, phone, channel);
    assert Hit(t, phone, channel);
    forall k | Matches(t, k, phone, channel) ensures k == mine {
      assert k == mine || Matches(db.rows, k, phone, channel);
    }
  }

  ghost function AllOf(records: seq<string>): set<int> {
    set i | 0 <= i < |records| && records[i] in records
  }

  lemma {:induction false} AllOfSize(records: seq<string>)
    ensures |AllOf(records)| == |records|
  {
    if records != [] {
      var n := |records| - 1;
      AllOfSize(records[..n]);
      assert records == records[..n] + [records[n]];
      assert AllOf(records) == AllOf(records[..n]) + {n};
    } else {
      assert AllOf(records) == {};
    }
  }

  /** Records of one number are all counted with its row. */
  lemma OneNumber(records: seq<string>, hits: HitMap, n: string)
    requires n in hits && forall i | 0 <= i < |records| :: Normalize(records[i]) == n
    ensures forall c :: WithThreat(records, hits, c) == if hits[n].threat == Some(c) then AllOf(records) else {}
    ensures forall d :: WithDataset(records, hits, d) == if hits[n].dataset == d then AllOf(records) else {}
  {
    hide Normalize;
  }

  lemma OneNumberMaps(records: seq<string>, hits: HitMap, n: string, threat: string, byThreat: map<string, nat>,
                      byDataset: map<Dataset, nat>)
    requires records != [] && n in hits && forall i | 0 <= i < |records| :: Normalize(records[i]) == n
    requires hits[n] == HitInfo(Itg, Some(threat))
    requires ShowsThreats(records, hits, byThreat) && ShowsDatasets(records, hits, byDataset)
    ensures byThreat == if threat == "" then map[] else map[threat := |records|]
    ensures byDataset == map[Itg := |records|]
  {
    hide Normalize, WithThreat, WithDataset, WithAnyThreat, SumOf;
    OneNumber(records, hits, n);
    AllOfSize(records);
    assert AllOf(records) != {};
    forall c ensures c in byThreat <==> c != "" && c == threat {
      assert WithThreat(records, hits, c) == if Some(threat) == Some(c) then AllOf(records) else {};
    }
    forall d ensures d in byDataset <==> d == Itg {
      assert WithDataset(records, hits, d) == if Itg == d then AllOf(records) else {};
    }
  }

  /** And so the report: records of that number alone are all counted under its threat, if it has one, and under ITG. */
  lemma {:induction false} TracebackIsCounted(db: Db, r: Request, now: int, records: seq<string>, channel: string,
                                              hits: HitMap, report: Report)
    requires r.IngestItg? && Apply(db, r, now).answer.Success?
    requires Covers(ParseChannel(OrDefault(r.channel, "voice")).value, channel)
    requires forall k :: Matches(db.rows, k, Normalize(r.phone), channel) ==>
                           k.channel == ParseChannel(OrDefault(r.channel, "voice")).value
    requires records != [] && forall i | 0 <= i < |records| :: Normalize(records[i]) == Normalize(r.phone)
    requires Analyzed(Apply(db, r, now).db.rows, records, channel, hits, report)
    ensures report.byThreat == if r.threat == "" then map[] else map[r.threat := |records|]
    ensures report.byDataset == map[Itg := |records|]
  {
    var t := Apply(db, r, now).db.rows;
    IngestChecks(db, r, now);
    hide *;
    AnalyzedIs(t, records, channel, hits, report);
    FirstIsCalled(records);
    TracebackIsReported(db, r, now, CallerSet(records), channel, hits);
    ThreatsAre(t, records, channel, hits, report);
    DatasetsAre(t, records, channel, hits, report);
    OneNumberMaps(records, hits, Normalize(r.phone), r.threat, report.byThreat, report.byDataset);
  }

  lemma IngestChecks(db: Db, r: Request, now: int)
    requires r.IngestItg? && Apply(db, r, now).answer.Success?
    ensures ValidPhone(Normalize(r.phone))
  {
  }

  lemma FirstIsCalled(records: seq<string>)
    requires records != [] && ValidPhone(Normalize(records[0]))
    ensures Normalize(records[0]) in CallerSet(records)
  {
    hide Normalize, ValidPhone;
  }

  lemma AnalyzedIs(t: Table, records: seq<string>, channel: string, hits: HitMap, r: Report)
    requires Analyzed(t, records, channel, hits, r)
    ensures HitsExactly(t, CallerSet(records), channel, hits)
  {
  }

  // ------------------------------------------------------ which twenty it lists

  function EntryFor(hits: HitMap, n: string, k: nat): Spoofed
    requires n in hits
  {
    Spoofed(n, hits[n].dataset, if hits[n].threat.Some? then hits[n].threat.value else "", k * k)
  }

  /** The list of these numbers, in this order. */
  ghost function Entries(records: seq<string>, hits: HitMap, ns: seq<string>): seq<Spoofed>
    requires forall n :: n in ns ==> n in hits
  {
    seq(|ns|, i requires 0 <= i < |ns| => EntryFor(hits, ns[i], Times(Callers(records), ns[i])))
  }

  lemma EntriesAreTop(records: seq<string>, hits: HitMap, ns: seq<string>)
    requires (forall n :: n in ns ==> n in hits) && Distinct(ns) && |ns| == Least(20, |hits|)
    ensures TopOf(records, hits, Entries(records, hits, ns))
    ensures forall i | 0 <= i < |ns| :: Entries(records, hits, ns)[i].phone == ns[i]
  {
    hide Times, Callers;
  }

  ghost predicate Lists(top: seq<Spoofed>, n: string) {
    exists i :: 0 <= i < |top| && top[i].phone == n
  }

  lemma TwentyOf(a: set<string>, x: string) returns (ns: seq<string>)
    requires x in a && |a| >= 20
    ensures Distinct(ns) && |ns| == 20 && x in ns && forall n :: n in ns ==> n in a
  {
    var rest := AListing(a - {x});
    forall i | 0 <= i < |rest| ensures rest[i] in a - {x} {
      assert rest[i] in Elements(rest);
    }
    ns := [x] + rest[..19];
    assert ns[0] == x;
  }

  lemma Relisted(t: Table, records: seq<string>, channel: string, hits: HitMap, r: Report, top: seq<Spoofed>)
    requires Analyzed(t, records, channel, hits, r) && TopOf(records, hits, top)
    ensures Analyzed(t, records, channel, hits, r.(top := top))
  {
    hide HitsExactly, TopOf, Counts, Marked;
  }

  /** With more than 20 spoofed numbers any one may be listed and any other left out, whatever their counts. */
  lemma AnyTwenty(t: Table, records: seq<string>, channel: string, hits: HitMap, r: Report, a: string, b: string)
    returns (r': Report)
    requires Analyzed(t, records, channel, hits, r)
    ensures Analyzed(t, records, channel, hits, r')
    ensures |hits| > 20 && a in hits && b in hits && a != b ==> Lists(r'.top, a) && !Lists(r'.top, b)
  {
    hide Analyzed, TopOf, Entries;
    r' := r;
    if !(|hits| > 20 && a in hits && b in hits && a != b) { return; }
    assert |hits.Keys| == |hits|;
    var ns := TwentyOf(hits.Keys - {b}, a);
    EntriesAreTop(records, hits, ns);
    var top := Entries(records, hits, ns);
    Relisted(t, records, channel, hits, r, top);
    r' := r.(top := top);
    ListsExactly(records, hits, ns);
  }

  lemma ListsExactly(records: seq<string>, hits: HitMap, ns: seq<string>)
    requires forall n :: n in ns ==> n in hits
    ensures forall n :: Lists(Entries(records, hits, ns), n) <==> n in ns
  {
    hide Times, Callers;
    forall n | n in ns ensures Lists(Entries(records, hits, ns), n) {
      var i :| 0 <= i < |ns| && ns[i] == n;
      assert Entries(records, hits, ns)[i].phone == n;
    }
  }

  /** No number left out has more records than one listed. */
  ghost predicate ListsMostFrequent(records: seq<string>, hits: HitMap, top: seq<Spoofed>) {
    forall a, b | a in hits && b in hits && Lists(top, a) && !Lists(top, b) ::
      Times(Callers(records), b) <= Times(Callers(records), a)
  }

  /** The list is the top 20 in every outcome exactly when there are at most 20 numbers, or all are equally frequent. */
  lemma TopIsMostFrequentIff(t: Table, records: seq<string>, channel: string, hits: HitMap, r: Report)
    requires Analyzed(t, records, channel, hits, r)
    ensures (forall r' | Analyzed(t, records, channel, hits, r') :: ListsMostFrequent(records, hits, r'.top)) <==>
            |hits| <= 20
            || forall a, b | a in hits && b in hits :: Times(Callers(records), a) == Times(Callers(records), b)
  {
    hide Analyzed, Times, Callers, Lists;
    if |hits| <= 20 {
      forall r' | Analyzed(t, records, channel, hits, r') ensures ListsMostFrequent(records, hits, r'.top) {
        TopIsCompleteIff(t, records, channel, hits, r');
        CompleteLists(hits, r'.top);
      }
    } else if forall r' | Analyzed(t, records, channel, hits, r') :: ListsMostFrequent(records, hits, r'.top) {
      forall a, b | a in hits && b in hits ensures Times(Callers(records), a) == Times(Callers(records), b) {
        if a != b {
          var r1 := AnyTwenty(t, records, channel, hits, r, a, b);
          var r2 := AnyTwenty(t, records, channel, hits, r, b, a);
          assert ListsMostFrequent(records, hits, r1.top) && ListsMostFrequent(records, hits, r2.top);
        }
      }
    }
  }

  lemma CompleteLists(hits: HitMap, top: seq<Spoofed>)
    requires forall n :: n in hits ==> exists i :: 0 <= i < |top| && top[i].phone == n
    ensures forall n :: n in hits ==> Lists(top, n)
  {
  }

  // ------------------------------------------- the analysis and bulk lookups

  function DnoAt(results: seq<Response>): (r: seq<Option<bool>>)
    ensures |r| == |results| && forall j | 0 <= j < |r| :: r[j].Some? <==> results[j].isDNO
  {
    seq(|results|, j requires 0 <= j < |results| => if results[j].isDNO then Some(true) else None)
  }

  lemma {:induction false} CountHitsIs(results: seq<Response>)
    ensures CountHits(results) == |Marked(DnoAt(results))|
  {
    if results == [] {
      assert Marked(DnoAt(results)) == {};
    } else {
      var n := |results| - 1;
      CountHitsIs(results[..n]);
      MarkedStep(DnoAt(results[..n]), DnoAt(results)[n]);
      assert DnoAt(results) == DnoAt(results[..n]) + [DnoAt(results)[n]];
    }
  }

  ghost function Image(order: seq<nat>, a: set<int>): set<int>
    requires forall j :: j in a ==> 0 <= j < |order|
  {
    set j | j in a :: order[j]
  }

  lemma {:induction false} ImageSize(order: seq<nat>, a: set<int>)
    requires forall j :: j in a ==> 0 <= j < |order|
    requires forall i, j | 0 <= i < j < |order| :: order[i] != order[j]
    ensures |Image(order, a)| == |a|
    decreases a
  {
    if a != {} {
      if forall x: int :: x !in a { assert false; }
      var x: int :| x in a;
      ImageSize(order, a - {x});
      assert Image(order, a) == Image(order, a - {x}) + {order[x]};
    }
  }

  /** The analysis and a bulk lookup of the same inputs report the same hits and misses. */
  lemma AnalysisAgreesWithBulk(t: Table, records: seq<string>, channel: string, hits: HitMap, r: Report,
                               early: seq<bool>, b: BulkResponse)
    requires Analyzed(t, records, channel, hits, r)
    requires |early| == |records| && BulkAnswers(t, records, channel, early, b)
    ensures r.total == b.total && r.hits == b.hits && r.misses == b.misses
  {
    hide Hit, ResultOrder, CountHits, TopOf, Counts, Answers, Marked, HitsExactly;
    HitsAreBlocked(t, records, channel, hits, r);
    CountHitsIs(b.results);
    ResultOrderIsPermutation(early);
    DnosAreBlocked(t, records, channel, ResultOrder(early), b.results);
  }

  lemma DnosAreBlocked(t: Table, records: seq<string>, channel: string, order: seq<nat>, results: seq<Response>)
    requires AnswersInOrder(t, records, channel, order, results) && |order| == |records|
    requires forall i | 0 <= i < |order| :: i in order
    requires forall i, j | 0 <= i < j < |order| :: order[i] != order[j]
    ensures |Marked(DnoAt(results))| == |BlockedRecords(t, records, channel)|
  {
    hide Answers, Blocked;
    var dnos := Marked(DnoAt(results));
    forall j | 0 <= j < |results| ensures results[j].isDNO <==> Blocked(t, records[order[j]], channel) {
      BlockedIsAnswered(t, records[order[j]], channel, results[j]);
    }
    ImageSize(order, dnos);
    forall i | i in BlockedRecords(t, records, channel) ensures i in Image(order, dnos) {
      assert i in order;
      var j :| 0 <= j < |order| && order[j] == i;
      assert DnoAt(results)[j].Some?;
      assert j in dnos;
    }
    assert Image(order, dnos) == BlockedRecords(t, records, channel);
  }

  // ------------------------------------------------------------ two reports

  /** Two records of one blocked number: it is reported with a count of four. */
  lemma TwoRecordsCountFour(t: Table, record: string, channel: string, hits: HitMap, r: Report)
    requires Blocked(t, record, channel) && Analyzed(t, [record, record], channel, hits, r)
    ensures |r.top| == 1 && r.top[0].phone == Normalize(record) && r.top[0].count == 4
  {
    hide Hit, Normalize, ValidPhone, Reported, Times;
    var records, n := [record, record], Normalize(record);
    assert records[0] == record && records[1] == record;
    assert CallerSet(records) == {n};
    assert hits.Keys == {n};
    assert |hits| == |hits.Keys|;
    assert Callers(records) == [Some(n), Some(n)];
    TimesOfTwo(n);
    assert TopEntry(records, hits, r.top[0]);
  }

  lemma TimesOfTwo(n: string)
    ensures Times([Some(n), Some(n)], n) == 2
  {
    assert Holding([Some(n), Some(n)], n) == {0, 1};
  }

  /** Distinct ten-digit numbers, one for each of the first hundred naturals. */
  function Numbered(i: nat): (n: string)
    requires i < 100
    ensures ValidPhone(n) && n[0] != '1'
  {
    "20000000" + [('0' as int + i / 10) as char, ('0' as int + i % 10) as char]
  }

  lemma NumberedApart(i: nat, j: nat)
    requires i < 100 && j < 100 && Numbered(i) == Numbered(j)
    ensures i == j
  {
    assert Numbered(i)[8] == Numbered(j)[8] && Numbered(i)[9] == Numbered(j)[9];
  }

  ghost function TwentyOne(): (s: seq<string>)
    ensures |s| == 21 && forall i | 0 <= i < 21 :: s[i] == Numbered(i)
  {
    seq(21, i requires 0 <= i < 21 => Numbered(i))
  }

  /** Each of these numbers has one row, on voice. */
  ghost function VoiceTable(ns: seq<string>, row: Row): Table {
    map n | n in Elements(ns) :: Key(n, Voice) := row
  }

  lemma AllBlocked(ns: seq<string>, row: Row, n: string)
    requires row.status == Active
    ensures Hit(VoiceTable(ns, row), n, "voice") <==> n in ns
  {
    if n in ns { assert Matches(VoiceTable(ns, row), Key(n, Voice), n, "voice"); }
  }

  /** Records of 21 blocked numbers, the first of them twice: some outcome leaves the most frequent number out. */
  lemma MostFrequentOmitted(row: Row, hits: HitMap, r: Report)
    requires row.status == Active
    requires Analyzed(VoiceTable(TwentyOne(), row), [Numbered(0)] + TwentyOne(), "voice", hits, r)
    ensures |hits| == 21
    ensures exists r' :: Analyzed(VoiceTable(TwentyOne(), row), [Numbered(0)] + TwentyOne(), "voice", hits, r')
                         && !ListsMostFrequent([Numbered(0)] + TwentyOne(), hits, r'.top)
  {
    hide Analyzed, ListsMostFrequent, Times, Callers;
    var ns, t := TwentyOne(), VoiceTable(TwentyOne(), row);
    var records := [Numbered(0)] + ns;
    HitsAreListed(row, hits, r);
    OnceOrTwice();
    assert ns[0] in hits.Keys && ns[1] in hits.Keys;
    TopIsMostFrequentIff(t, records, "voice", hits, r);
  }

  lemma HitsAreListed(row: Row, hits: HitMap, r: Report)
    requires row.status == Active
    requires Analyzed(VoiceTable(TwentyOne(), row), [Numbered(0)] + TwentyOne(), "voice", hits, r)
    ensures hits.Keys == Elements(TwentyOne()) && |hits| == 21
  {
    hide Hit, Reported, TopOf, Normalize, ValidPhone, VoiceTable;
    var ns, t := TwentyOne(), VoiceTable(TwentyOne(), row);
    var records := [Numbered(0)] + ns;
    forall i | 0 <= i < |records| ensures Normalize(records[i]) == records[i] && ValidPhone(records[i]) {
      PlainNumber(records[i]);
    }
    forall n ensures n in CallerSet(records) <==> n in ns {
      if n in ns {
        var i :| 0 <= i < |ns| && ns[i] == n;
        assert records[i + 1] == n;
      }
    }
    forall n ensures n in hits <==> n in ns { AllBlocked(ns, row, n); }
    forall i, j | 0 <= i < j < 21 ensures ns[i] != ns[j] {
      if ns[i] == ns[j] { NumberedApart(i, j); }
    }
    assert hits.Keys == Elements(ns);
    DistinctIff(ns);
    assert |hits| == |hits.Keys|;
  }

  lemma OnceOrTwice()
    ensures
      var records := [Numbered(0)] + TwentyOne();
      Times(Callers(records), Numbered(0)) == 2 && Times(Callers(records), Numbered(1)) == 1
  {
    hide Normalize, ValidPhone, Numbered;
    var ns := TwentyOne();
    var records := [Numbered(0)] + ns;
    forall i | 0 <= i < |records|
      ensures Callers(records)[i] == Some(Numbered(if i == 0 then 0 else i - 1))
    {
      PlainNumber(records[i]);
    }
    forall i: nat, j: nat | i < 21 && j < 21 && Numbered(i) == Numbered(j) ensures i == j { NumberedApart(i, j); }
    assert Holding(Callers(records), Numbered(0)) == {0, 1};
    assert Holding(Callers(records), Numbered(1)) == {2};
  }
}
