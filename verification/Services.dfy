/** The services over the two tables (internal/service/dno.go and internal/service/features.go). A statement is one
    assignment to the table it writes; `now` and `clock` stand for the clocks the source reads. */
module Services {
  import opened Wrappers
  import opened Phone
  import opened NumberTable
  import opened TtlCache
  import opened Lookup
  import opened Outcomes
  import opened Refinement
  import opened Collections
  import opened TssSync

  class Database {
    var rows: Table
    var registry: Registry

    function State(): Db
      reads this
    {
      Db(rows, registry)
    }

    /** SELECT ... LIMIT 1 with no ORDER BY. */
    method SelectOne(phone: string, channel: string) returns (found: Option<Key>)
      ensures found.Some? <==> Hit(rows, phone, channel)
      ensures found.Some? ==> Matches(rows, found.value, phone, channel)
    {
      if exists k :: k in rows && Matches(rows, k, phone, channel) {
        var k :| k in rows && Matches(rows, k, phone, channel);
        return Some(k);
      }
      return None;
    }

    /** SELECT ... WHERE phone_number IN (...), its rows in whatever order the engine yields them. */
    method SelectActive(phones: seq<string>, channel: string) returns (found: seq<Key>)
      ensures forall i | 0 <= i < |found| ::
                found[i].phone in phones && Matches(rows, found[i], found[i].phone, channel)
      ensures forall k: Key :: k.phone in phones && Matches(rows, k, k.phone, channel) ==> k in found
    {
      found := [];
      var unvisited := rows.Keys;
      while unvisited != {}
        invariant unvisited <= rows.Keys
        invariant forall i | 0 <= i < |found| ::
                    found[i].phone in phones && Matches(rows, found[i], found[i].phone, channel)
        invariant forall k: Key ::
                    k in rows && k !in unvisited && k.phone in phones && Matches(rows, k, k.phone, channel) ==>
                    k in found
      {
        var k :| k in unvisited;
        unvisited := unvisited - {k};
        if k.phone in phones && Matches(rows, k, k.phone, channel) {
          found := found + [k];
        }
      }
    }
  }

  /** The last scanned row of this number. */
  ghost predicate LastOf(found: seq<Key>, phone: string, k: Key) {
    && k.phone == phone
    && exists i :: 0 <= i < |found| && found[i] == k && forall j | i < j < |found| :: found[j].phone != phone
  }

  lemma LastOfStep(found: seq<Key>, n: nat)
    requires n < |found|
    ensures LastOf(found[..n + 1], found[n].phone, found[n])
    ensures forall p, k | p != found[n].phone && LastOf(found[..n], p, k) :: LastOf(found[..n + 1], p, k)
  {
    assert found[..n + 1][n] == found[n];
    forall p, k | p != found[n].phone && LastOf(found[..n], p, k) ensures LastOf(found[..n + 1], p, k) {
      var i :| 0 <= i < n && found[..n][i] == k && forall j | i < j < n :: found[..n][j].phone != p;
      assert found[..n + 1][i] == k;
    }
  }

  lemma LastOfIsRow(found: seq<Key>)
    ensures forall p, k | LastOf(found, p, k) :: k in found && k.phone == p
  {
  }

  class DNOService {
    const db: Database
    const cache: TTLCache?<Response>
    /** What the service has handed to the query-log writer. */
    var logged: seq<QueryLog.Entry>

    constructor (db: Database, cache: TTLCache?<Response>)
      ensures this.db == db && this.cache == cache && logged == []
    {
      this.db := db;
      this.cache := cache;
      logged := [];
    }

    ghost predicate Agrees()
      reads db, cache
    {
      cache != null ==> Coherent(db.rows, cache.items)
    }

    method QueryNumber(phoneNumber: string, channelArg: string, org: Option<int>, clock: nat -> int)
      returns (r: Result<Response>)
      requires Agrees()
      modifies this`logged, if cache == null then {} else {cache}
      ensures Agrees()
      ensures
        var phone, channel := Normalize(phoneNumber), OrDefault(channelArg, "voice");
        match r
        case Failure(e) =>
          && e == (if !ValidPhone(phone) then BadPhone else BadChannel)
          && !(ValidPhone(phone) && ValidChannel(channel)) && logged == old(logged)
        case Success(resp) =>
          && ValidPhone(phone) && ValidChannel(channel) && Admissible(db.rows, phone, channel, resp)
          && Reports(db.rows, phone, channel, resp)
          && logged == old(logged) + LogOf(org, [resp], channel)
          && logged == old(logged) +
             if org.None? then []
             else [QueryLog.Entry(org.value, phone, if resp.isDNO then "hit" else "miss", channel)]
      ensures
        var key := CacheKey(Normalize(phoneNumber), OrDefault(channelArg, "voice"));
        cache != null && r.Success? ==>
          var live := TtlCache.Lookup(old(cache.items), key, clock(0));
          Moves(cache.ttl, cache.maxSize, Service(db.State(), old(cache.items)),
                if live.Some? then Answered(Normalize(phoneNumber), OrDefault(channelArg, "voice"), clock(0), r.value)
                else Filled(Normalize(phoneNumber), OrDefault(channelArg, "voice"), clock(1), r.value),
                Service(db.State(), cache.items))
    {
      var phone := Normalize(phoneNumber);
      if !ValidPhone(phone) { return Failure(BadPhone); }
      var channel := OrDefault(channelArg, "voice");
      if !ValidChannel(channel) { return Failure(BadChannel); }

      if cache != null {
        var cached := cache.Get(CacheKey(phone, channel), clock(0));
        if cached.Some? {
          CoherentGet(db.rows, cache.items, phone, channel, clock(0));
          LogLookup(org, phone, channel, cached.value);
          AdmissibleIff(db.rows, phone, channel, cached.value);
          return Success(cached.value);
        }
      }

      var found := db.SelectOne(phone, channel);
      var resp := if found.None? then MissResponse(phone, channel) else HitResponse(found.value, db.rows[found.value]);
      LogLookup(org, phone, channel, resp);
      AdmissibleIff(db.rows, phone, channel, resp);
      if cache != null { Remember(phone, channel, resp, clock(1)); }
      return Success(resp);
    }

    /** The call to the query-log writer after a lookup. */
    method LogLookup(org: Option<int>, phone: string, channel: string, resp: Response)
      requires Admissible(db.rows, phone, channel, resp)
      modifies this`logged
      ensures logged == old(logged) + LogOf(org, [resp], channel)
      ensures logged == old(logged) +
              if org.None? then []
              else [QueryLog.Entry(org.value, phone, if resp.isDNO then "hit" else "miss", channel)]
    {
      if org.Some? {
        AdmissibleShape(db.rows, phone, channel, resp);
        var result := if resp.isDNO then "hit" else "miss";
        logged := logged + [QueryLog.Entry(org.value, phone, result, channel)];
        assert [resp][..0] == [];
      }
    }

    method BulkQuery(inputs: seq<string>, channelArg: string, org: Option<int>, clock: nat -> int)
      returns (r: Result<BulkResponse>, ghost early: seq<bool>)
      requires Agrees()
      modifies this`logged, if cache == null then {} else {cache}
      ensures Agrees()
      ensures r.Failure? <==> |inputs| > 1000 || !ValidChannel(OrDefault(channelArg, "voice"))
      ensures r.Failure? ==>
                r.error == (if |inputs| > 1000 then TooManyNumbers else BadChannel) && logged == old(logged)
      ensures r.Success? ==>
                && |early| == |inputs|
                && EarlyWhen(inputs, OrDefault(channelArg, "voice"), old(Cached()), clock, early, r.value.results)
                && ShowsCached(inputs, OrDefault(channelArg, "voice"), old(Cached()), clock, early, r.value.results)
                && BulkAnswers(db.rows, inputs, OrDefault(channelArg, "voice"), early, r.value)
                && logged == old(logged) + LogOf(org, r.value.results, OrDefault(channelArg, "voice"))
                && BulkReports(db.rows, inputs, OrDefault(channelArg, "voice"), early, r.value.results)
                && OneAnswerEach(inputs, early, r.value.results)
      ensures r.Success? && cache != null ==>
                BulkPath(cache.ttl, cache.maxSize, Service(db.State(), old(cache.items)), inputs,
                         OrDefault(channelArg, "voice"), clock, early, r.value.results,
                         Service(db.State(), cache.items))
      ensures r.Failure? ==> Cached() == old(Cached())
    {
      hide *;
      CachedIs();
      early := [];
      if |inputs| > 1000 { return Failure(TooManyNumbers), []; }
      var channel := OrDefault(channelArg, "voice");
      if !ValidChannel(channel) { return Failure(BadChannel), []; }

      var results, toQuery, uncached, hits;
      results, toQuery, uncached, hits, early := ScanInputs(inputs, channel, org, clock);
      var dnoHits := QueryHits(uncached, channel);
      ghost var first, rest, entries := results, [], [];
      ScannedFacts(db.rows, inputs, channel, early, results, toQuery, uncached, hits);
      ScannedSize(db.rows, inputs, channel, early, results, toQuery, uncached, hits);
      results, hits, rest, entries :=
        AnswerQueried(inputs, channel, org, clock, early, results, toQuery, uncached, dnoHits, hits);
      EarlyExtends(inputs, channel, old(Cached()), clock, early, first, results);
      OneAnswerIs(db.rows, dnoHits, channel, inputs, early, toQuery, uncached, first, rest);
      if cache != null {
        ghost var s := Service(db.State(), old(cache.items));
        BulkPathIs(cache.ttl, cache.maxSize, s, inputs, channel, clock, early, first, rest,
                   Service(db.State(), cache.items));
      }
      r := Success(BulkResponse(results, |inputs|, hits, |inputs| - hits));
      BulkDone(db.rows, inputs, channel, early, r.value);
      BulkReportsIs(db.rows, inputs, channel, early, results);
      ShowsCachedIs(inputs, channel, old(Cached()), clock, early, results);
    }

    /** What the cache holds; nothing when there is none. */
    ghost function Cached(): Items<Response>
      reads cache
    {
      if cache == null then map[] else cache.items
    }

    lemma CachedIs()
      ensures cache != null ==> Cached() == cache.items
    {
    }

    /** The first loop: malformed and cached inputs are answered at once, the others queue up. */
    method ScanInputs(inputs: seq<string>, channel: string, org: Option<int>, clock: nat -> int)
      returns (results: seq<Response>, toQuery: seq<string>, uncached: seq<string>, hits: nat, ghost early: seq<bool>)
      requires Agrees()
      modifies this`logged
      ensures |early| == |inputs|
      ensures Scanned(db.rows, inputs, channel, early, results, toQuery, uncached, hits)
      ensures EarlyWhen(inputs, channel, Cached(), clock, early, results)
      ensures logged == old(logged) + LogOf(org, results, channel)
    {
      hide *;
      ScannedNothing(db.rows, inputs, channel, Cached(), clock);
      LogOfNothing(org, channel);
      results, toQuery, uncached, hits, early := [], [], [], 0, [];
      var uncachedMap: set<string> := {};
      for i := 0 to |inputs|
        invariant |early| == i && Scanned(db.rows, inputs, channel, early, results, toQuery, uncached, hits)
        invariant EarlyWhen(inputs, channel, Cached(), clock, early, results)
        invariant uncachedMap == set n | n in uncached
        invariant logged == old(logged) + LogOf(org, results, channel)
      {
        var answer := ScanOne(inputs[i], channel, org, clock(i));
        ScannedSize(db.rows, inputs, channel, early, results, toQuery, uncached, hits);
        EarlyNext(inputs, channel, Cached(), clock, early, results, answer);
        if answer.Some? {
          ScannedEarly(db.rows, inputs, channel, early, results, toQuery, uncached, hits, answer.value);
          LogOfStep(org, results, answer.value, channel);
          results := results + [answer.value];
          hits := if answer.value.isDNO then hits + 1 else hits;
          early := early + [true];
        } else {
          ScannedLate(db.rows, inputs, channel, early, results, toQuery, uncached, hits);
          var n := Normalize(inputs[i]);
          toQuery := toQuery + [n];
          if n !in uncachedMap {
            uncached := uncached + [n];
            uncachedMap := uncachedMap + {n};
          }
          early := early + [false];
        }
      }
    }

    /** The answer the first loop finds for one input, if any, logged when it came from the cache. */
    method ScanOne(input: string, channel: string, org: Option<int>, now: int) returns (answer: Option<Response>)
      requires Agrees()
      modifies this`logged
      ensures answer.Some? ==> Answers(db.rows, input, channel, answer.value)
      ensures answer == EarlyAnswer(input, channel, Cached(), now)
      ensures answer.None? ==> ValidPhone(Normalize(input))
      ensures logged == old(logged) + if answer.Some? then LogOf(org, [answer.value], channel) else []
    {
      var n := Normalize(input);
      if !ValidPhone(n) {
        answer := Some(ErrorResponse(input, channel));
        assert [answer.value][..0] == [];
        return;
      }
      if cache == null { return None; }
      answer := cache.Get(CacheKey(n, channel), now);
      if answer.Some? {
        CoherentGet(db.rows, cache.items, n, channel, now);
        LogLookup(org, n, channel, answer.value);
      }
    }

    /** The database part: every queried number that has a matching row is mapped to one. */
    method QueryHits(uncached: seq<string>, channel: string) returns (dnoHits: map<string, Key>)
      ensures HitsOf(db.rows, uncached, channel, dnoHits)
    {
      dnoHits := map[];
      if |uncached| > 0 {
        var found := db.SelectActive(uncached, channel);
        dnoHits := KeepLast(found);
        LastOfIsRow(found);
      }
    }

    /** `dnoHits[n.PhoneNumber] = n` over the scanned rows: the last row of a number wins. */
    method KeepLast(found: seq<Key>) returns (dnoHits: map<string, Key>)
      ensures forall k :: k in found ==> k.phone in dnoHits
      ensures forall p :: p in dnoHits ==> LastOf(found, p, dnoHits[p])
    {
      hide LastOf;
      dnoHits := map[];
      for i := 0 to |found|
        invariant forall k :: k in found[..i] ==> k.phone in dnoHits
        invariant forall p :: p in dnoHits ==> LastOf(found[..i], p, dnoHits[p])
      {
        LastOfStep(found, i);
        assert found[..i + 1] == found[..i] + [found[i]];
        dnoHits := dnoHits[found[i].phone := found[i]];
      }
      assert found[..|found|] == found;
    }

    /** The last loop: each queued input is answered from the hit map, cached and logged. */
    method AnswerQueried(inputs: seq<string>, channel: string, org: Option<int>, clock: nat -> int,
                         ghost early: seq<bool>, results0: seq<Response>, toQuery: seq<string>,
                         ghost uncached: seq<string>, dnoHits: map<string, Key>, hits0: nat)
      returns (results: seq<Response>, hits: nat, ghost rest: seq<Response>, ghost entries: seq<QueryLog.Entry>)
      requires Agrees() && |early| == |inputs|
      requires Scanned(db.rows, inputs, channel, early, results0, toQuery, uncached, hits0)
      requires HitsOf(db.rows, uncached, channel, dnoHits)
      modifies this`logged, if cache == null then {} else {cache}
      ensures Agrees()
      ensures AnswersInOrder(db.rows, inputs, channel, ResultOrder(early), results) && hits == CountHits(results)
      ensures results == results0 + rest && FromDb(db.rows, dnoHits, channel, toQuery, rest) && |rest| == |toQuery|
      ensures cache != null ==>
                FillPath(cache.ttl, cache.maxSize, Service(db.State(), old(cache.items)), inputs, channel, clock, early,
                         rest, Service(db.State(), cache.items))
      ensures logged == old(logged) + entries
      ensures LogOf(org, results, channel) == LogOf(org, results0, channel) + entries
    {
      hide *;
      results, hits, rest, entries := results0, hits0, [], [];
      FromDbNothing(db.rows, dnoHits, channel, toQuery);
      CachedIs();
      ghost var s := Service(db.State(), Cached());
      if cache != null { FillNothing(cache.ttl, cache.maxSize, s, inputs, channel, clock, early); }
      ScannedFacts(db.rows, inputs, channel, early, results, toQuery, uncached, hits);
      AnswersStart(db.rows, inputs, channel, early, results);
      for j := 0 to |toQuery|
        invariant Agrees()
        invariant AnswersUpTo(db.rows, inputs, channel, early, j, results) && hits == CountHits(results)
        invariant results == results0 + rest && |rest| == j && FromDb(db.rows, dnoHits, channel, toQuery, rest)
        invariant cache != null ==>
                    FillPath(cache.ttl, cache.maxSize, s, inputs, channel, clock, early, rest,
                             Service(db.State(), cache.items))
        invariant logged == old(logged) + entries
        invariant LogOf(org, results, channel) == LogOf(org, results0, channel) + entries
      {
        QueuedAt(inputs, early, toQuery, uncached, j);
        FromDbStep(db.rows, dnoHits, channel, toQuery, rest);
        CachedIs();
        ghost var mid := Service(db.State(), Cached());
        var resp := AnswerOne(toQuery[j], channel, org, clock(|inputs| + j), uncached, dnoHits);
        AnswersNext(db.rows, inputs, channel, early, j, results, toQuery, uncached, resp);
        LogOfStep(org, results, resp, channel);
        if cache != null {
          FillStep(cache.ttl, cache.maxSize, s, inputs, channel, clock, early, rest, mid, toQuery[j], resp,
                   Service(db.State(), cache.items));
        }
        rest := rest + [resp];
        entries := entries + LogOf(org, [resp], channel);
        hits := if resp.isDNO then hits + 1 else hits;
        results := results + [resp];
      }
      AnswersEnd(db.rows, inputs, channel, early, |toQuery|, results);
    }

    method AnswerOne(n: string, channel: string, org: Option<int>, now: int, ghost uncached: seq<string>,
                     dnoHits: map<string, Key>)
      returns (resp: Response)
      requires Agrees() && ValidPhone(n) && n in uncached && HitsOf(db.rows, uncached, channel, dnoHits)
      modifies this`logged, if cache == null then {} else {cache}
      ensures Agrees() && Admissible(db.rows, n, channel, resp) && resp == DbAnswer(db.rows, dnoHits, n, channel)
      ensures cache != null ==>
                Moves(cache.ttl, cache.maxSize, Service(db.State(), old(cache.items)), Filled(n, channel, now, resp),
                      Service(db.State(), cache.items))
      ensures logged == old(logged) + LogOf(org, [resp], channel)
    {
      hide *;
      AgreesIs();
      DbAnswerAdmissible(db.rows, uncached, dnoHits, n, channel);
      resp := DbAnswer(db.rows, dnoHits, n, channel);
      if cache != null { Remember(n, channel, resp, now); }
      AgreesIs();
      LogLookup(org, n, channel, resp);
    }

    /** `dnoCache.Set` with an answer just read off the table. */
    method Remember(phone: string, channel: string, resp: Response, now: int)
      requires cache != null && Agrees() && ValidPhone(phone) && Admissible(db.rows, phone, channel, resp)
      modifies cache
      ensures Agrees()
      ensures Moves(cache.ttl, cache.maxSize, Service(db.State(), old(cache.items)), Filled(phone, channel, now, resp),
                    Service(db.State(), cache.items))
    {
      hide *;
      AgreesIs();
      ghost var before := cache.items;
      StateIs();
      cache.Set(CacheKey(phone, channel), resp, now);
      CoherentSet(db.rows, before, cache.maxSize, phone, channel, Entry(resp, now + cache.ttl), cache.items);
      FilledIs(cache.ttl, cache.maxSize, Service(db.State(), before), phone, channel, now, resp, cache.items);
      AgreesIs();
    }

    lemma AgreesIs()
      ensures Agrees() <==> (cache != null ==> Coherent(db.rows, cache.items))
    {
    }

    lemma StateIs()
      ensures db.State().rows == db.rows
    {
    }

    method AddNumber(req: Request, now: int) returns (r: Result<nat>)
      requires req.AddNumber? && Agrees()
      modifies db, if cache == null then {} else {cache}
      ensures Agrees()
      ensures r == Apply(old(db.State()), req, now).answer && db.State() == Apply(old(db.State()), req, now).db
      ensures cache != null ==>
                Moves(cache.ttl, cache.maxSize, Service(old(db.State()), old(cache.items)), Wrote(req, now),
                      Service(db.State(), cache.items))
      ensures AddOutcome(old(db.State()), req, now, r, db.State())
    {
      AddOutcomeIs(db.State(), req, now);
      var phone := Normalize(req.phone);
      if !ValidPhone(phone) { return Failure(BadPhone); }
      var channel := ParseChannel(OrDefault(req.channel, "voice"));
      var numberType := ParseNumberType(OrDefault(req.numberType, "local"));
      if channel.None? { return Failure(BadChannel); }
      if numberType.None? { return Failure(BadNumberType); }

      ghost var before := db.State();
      var key := Key(phone, channel.value);
      db.rows := UpsertSubscriber(db.rows, key, numberType.value, req.reason, req.org, req.user, now);
      Invalidate(phone, before, req, now);
      return Success(0);
    }

    method RemoveNumber(req: Request, now: int) returns (r: Result<nat>)
      requires req.RemoveNumber? && Agrees()
      modifies db, if cache == null then {} else {cache}
      ensures Agrees()
      ensures r == Apply(old(db.State()), req, now).answer && db.State() == Apply(old(db.State()), req, now).db
      ensures cache != null ==>
                Moves(cache.ttl, cache.maxSize, Service(old(db.State()), old(cache.items)), Wrote(req, now),
                      Service(db.State(), cache.items))
      ensures RemoveOutcome(old(db.State()), req, now, r, db.State())
    {
      RemoveOutcomeIs(db.State(), req, now);
      var phone := Normalize(req.phone);
      var channel := OrDefault(req.channel, "voice");
      if !ValidChannel(channel) { return Failure(BadChannel); }

      ghost var before := db.State();
      var affected := set k | k in db.rows && Removable(db.rows, k, phone, channel, req.org);
      db.rows := Deactivate(db.rows, phone, channel, req.org, now);
      if |affected| == 0 {
        forall k | k in before.rows ensures !Removable(before.rows, k, phone, channel, req.org) {
          assert k !in affected;
        }
        assert db.rows == before.rows;
        return Failure(NotFoundOrNotOwner);
      }
      assert exists k :: k in before.rows && Removable(before.rows, k, phone, channel, req.org) by {
        var k :| k in affected;
      }
      Invalidate(phone, before, req, now);
      return Success(0);
    }

    /** `dnoCache.DeletePrefix(phone + ":")` after a write to this number. */
    method Invalidate(phone: string, ghost before: Db, ghost req: Request, ghost now: int)
      requires cache != null ==> Coherent(before.rows, cache.items)
      requires (req.AddNumber? || req.RemoveNumber?) && Normalize(req.phone) == phone
      requires db.State() == Apply(before, req, now).db
      modifies if cache == null then {} else {cache}
      ensures Agrees()
      ensures cache != null ==> cache.items == WithoutPrefix(old(cache.items), phone + ":")
    {
      if cache != null {
        ghost var items := cache.items;
        cache.DeletePrefix(phone + ":");
        forall q | ValidPhone(q) && q != phone ensures SameNumber(before.rows, db.rows, q) {
          ApplyFrame(before, req, now, q);
        }
        CoherentWrite(before.rows, db.rows, items, phone);
      }
    }
  }

  class FeaturesService {
    const db: Database

    constructor (db: Database)
      ensures this.db == db
    {
      this.db := db;
    }

    method IngestItgNumber(req: Request, now: int) returns (r: Result<nat>)
      requires req.IngestItg?
      modifies db
      ensures r == Apply(old(db.State()), req, now).answer && db.State() == Apply(old(db.State()), req, now).db
      ensures IngestOutcome(old(db.State()), req, now, r, db.State())
    {
      IngestOutcomeIs(db.State(), req, now);
      var phone := Normalize(req.phone);
      if !ValidPhone(phone) { return Failure(BadPhone); }
      var channel := ParseChannel(OrDefault(req.channel, "voice"));
      if channel.None? { return Failure(BadChannel); }
      var reason := "Traceback: " + req.threat;
      db.rows := UpsertItg(db.rows, Key(phone, channel.value), reason, req.investigation, req.threat, now);
      return Success(0);
    }

    method ProcessNpacPortingEvent(req: Request, now: int) returns (r: Result<nat>)
      requires req.NpacEvent?
      modifies db
      ensures r == Apply(old(db.State()), req, now).answer && db.State() == Apply(old(db.State()), req, now).db
      ensures NpacOutcome(old(db.State()), req, now, r, db.State())
    {
      NpacOutcomeIs(db.State(), req, now);
      var phone, status := Normalize(req.phone), req.newStatus;
      if !ValidPhone(phone) { return Failure(BadPhone); }
      if status == "ported" || status == "assigned" {
        db.registry := UpsertOwner(db.registry, phone, req.newOwner, status);
      }
      if status == "disconnected" || status == "unassigned" {
        db.rows := UpsertAuto(db.rows, phone, "NPAC: number " + status, now);
      }
      if status == "ported" || status == "assigned" {
        db.rows := RetireAuto(db.rows, phone, now);
      }
      return Success(0);
    }

    method SyncTssRegistry(now: int) returns (r: Result<nat>)
      modifies db
      ensures r == Apply(old(db.State()), SyncTss, now).answer && db.State() == Apply(old(db.State()), SyncTss, now).db
      ensures SyncOutcome(old(db.State()), now, r, db.State())
    {
      SyncOutcomeIs(db.State(), now);
      ghost var before := db.State();
      var undo := db.rows;
      var selected := ListOf(Qualifying(db.State()));
      assert forall phone :: phone in selected <==> phone in Elements(selected);
      SyncInAnyOrder(before, selected, now);
      for i := 0 to |selected|
        invariant InsertEach(before.rows, selected[..i], now) == Some(db.rows) && db.registry == before.registry
      {
        InsertEachStep(before.rows, selected, i, now);
        if Key(selected[i], Text) in db.rows {
          db.rows := undo;
          return Failure(SyncConflict);
        }
        db.rows := db.rows[Key(selected[i], Text) := TssRow(now)];
      }
      assert selected[..|selected|] == selected;
      return Success(|selected|);
    }
  }
}
