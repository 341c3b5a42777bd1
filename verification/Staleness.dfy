/** Several processes, each with its own cache, over one database, every step interleaved with every other: a lookup's
    database read and its cache Set are separate steps, and so are a write and the invalidation that may follow it. */
module Staleness {
  import opened Wrappers
  import opened Phone
  import opened NumberTable
  import opened TtlCache
  import opened Lookup

  /** A lookup that has read the table and not yet called Set. */
  datatype Reading = Reading(phone: string, channel: string, answer: Response)

  datatype Process = Process(ttl: nat, maxSize: nat, items: Items<Response>, inFlight: map<nat, Reading>)

  datatype World = World(now: int, db: Db, procs: map<nat, Process>)

  datatype Step =
    | Tick(elapsed: nat)
    | Write(req: Request)
    | Read(pid: nat, rid: nat, phone: string, channel: string, answer: Response)
    | Fill(pid: nat, rid: nat)
    | Invalidate(pid: nat, phone: string)
    | Forget(pid: nat)

  /** The read half of a lookup. */
  ghost predicate ReadNext(t: Table, s: Step, p: Process, p': Process)
    requires s.Read?
  {
    && s.rid !in p.inFlight && ValidPhone(s.phone) && Admissible(t, s.phone, s.channel, s.answer)
    && p' == Process(p.ttl, p.maxSize, p.items, p.inFlight[s.rid := Reading(s.phone, s.channel, s.answer)])
  }

  /** Its Set, which may evict. */
  ghost predicate FillNext(now: int, s: Step, p: Process, p': Process)
    requires s.Fill?
  {
    && s.rid in p.inFlight
    && SetEffect(p.items, p.maxSize, CacheKey(p.inFlight[s.rid].phone, p.inFlight[s.rid].channel),
                 Entry(p.inFlight[s.rid].answer, now + p.ttl), p'.items)
    && p' == Process(p.ttl, p.maxSize, p'.items, p.inFlight - {s.rid})
  }

  ghost predicate ForgetNext(p: Process, p': Process) {
    SubItems(p'.items, p.items) && p' == Process(p.ttl, p.maxSize, p'.items, p.inFlight)
  }

  /** What a step does to the process it belongs to. */
  ghost predicate ProcessNext(w: World, s: Step, p: Process, p': Process)
    requires !s.Tick? && !s.Write?
  {
    if s.Read? then ReadNext(w.db.rows, s, p, p')
    else if s.Fill? then FillNext(w.now, s, p, p')
    else if s.Invalidate? then p' == Process(p.ttl, p.maxSize, WithoutPrefix(p.items, s.phone + ":"), p.inFlight)
    else ForgetNext(p, p')
  }

  ghost predicate Next(w: World, s: Step, w': World) {
    if s.Tick? then w' == World(w.now + s.elapsed, w.db, w.procs)
    else if s.Write? then w' == World(w.now, Apply(w.db, s.req, w.now).db, w.procs)
    else
      && s.pid in w.procs && s.pid in w'.procs
      && ProcessNext(w, s, w.procs[s.pid], w'.procs[s.pid])
      && w' == World(w.now, w.db, w.procs[s.pid := w'.procs[s.pid]])
  }

  /** An interleaving, from caches that are empty and no lookup under way. */
  ghost predicate Trace(ws: seq<World>, ss: seq<Step>) {
    && |ws| == |ss| + 1
    && (forall pid :: pid in ws[0].procs ==> ws[0].procs[pid].items == map[] && ws[0].procs[pid].inFlight == map[])
    && forall m | 0 <= m < |ss| :: Next(ws[m], ss[m], ws[m + 1])
  }

  lemma {:induction false} TimeFlows(ws: seq<World>, ss: seq<Step>, a: nat, b: nat)
    requires Trace(ws, ss) && a <= b < |ws|
    ensures ws[a].now <= ws[b].now
    ensures forall pid :: pid in ws[b].procs ==> pid in ws[a].procs && ws[a].procs[pid].ttl == ws[b].procs[pid].ttl
    decreases b
  {
    if a < b {
      TimeFlows(ws, ss, a, b - 1);
      assert Next(ws[b - 1], ss[b - 1], ws[b]);
    }
  }

  /** Step `m` is about the lookup `rid` of process `pid`. */
  predicate Concerns(s: Step, pid: nat, rid: nat) {
    (s.Read? || s.Fill?) && s.pid == pid && s.rid == rid
  }

  /** A lookup under way was started by a Read, and nothing has concerned it since. */
  lemma {:induction false} ReadOf(ws: seq<World>, ss: seq<Step>, n: nat, pid: nat, rid: nat) returns (i: nat)
    requires Trace(ws, ss) && n < |ws| && pid in ws[n].procs && rid in ws[n].procs[pid].inFlight
    ensures i < n && ss[i].Read? && Concerns(ss[i], pid, rid)
    ensures ws[n].procs[pid].inFlight[rid] == Reading(ss[i].phone, ss[i].channel, ss[i].answer)
    ensures forall m | i < m < n :: !Concerns(ss[m], pid, rid)
  {
    assert Next(ws[n - 1], ss[n - 1], ws[n]);
    if ss[n - 1].Read? && Concerns(ss[n - 1], pid, rid) {
      i := n - 1;
    } else {
      i := ReadOf(ws, ss, n - 1, pid, rid);
    }
  }

  /** The Read at `i` and the Fill at `j` are the two halves of one lookup. */
  ghost predicate OneLookup(ss: seq<Step>, i: nat, j: nat) {
    && i < j < |ss| && ss[i].Read? && ss[j] == Fill(ss[i].pid, ss[i].rid)
    && forall m | i < m < j :: !Concerns(ss[m], ss[i].pid, ss[i].rid)
  }

  /** Every cache entry was put there by one lookup of its own process, and its number has not been invalidated there
      since. */
  lemma {:induction false} EntryOrigin(ws: seq<World>, ss: seq<Step>, n: nat, pid: nat, key: string)
    returns (i: nat, j: nat)
    requires Trace(ws, ss) && n < |ws| && pid in ws[n].procs && key in ws[n].procs[pid].items
    ensures j < n && OneLookup(ss, i, j) && ss[i].pid == pid && pid in ws[j].procs
    ensures key == CacheKey(ss[i].phone, ss[i].channel)
    ensures ws[n].procs[pid].items[key] == Entry(ss[i].answer, ws[j].now + ws[j].procs[pid].ttl)
    ensures forall m | j < m < n :: ss[m] != Invalidate(pid, ss[i].phone)
  {
    hide Admissible, Apply, Normalize, ValidPhone, CacheKey;
    var w := ws[n - 1];
    assert Next(w, ss[n - 1], ws[n]);
    if ss[n - 1].Fill? && ss[n - 1].pid == pid {
      var r := w.procs[pid].inFlight[ss[n - 1].rid];
      if key == CacheKey(r.phone, r.channel) {
        j := n - 1;
        i := ReadOf(ws, ss, j, pid, ss[j].rid);
        return;
      }
    }
    assert pid in w.procs && key in w.procs[pid].items && w.procs[pid].items[key] == ws[n].procs[pid].items[key];
    i, j := EntryOrigin(ws, ss, n - 1, pid, key);
    assert Next(ws[i], ss[i], ws[i + 1]);
    KeyPrefixIff(ss[i].phone, ss[i].phone, ss[i].channel);
    assert ss[n - 1] != Invalidate(pid, ss[i].phone);
  }

  /** Bounded staleness, over every interleaving and whatever the writers: an answer served from a cache at instant `n`
      was an admissible answer for the table at some earlier Read `i` of the same process, and that Read is no older
      than the TTL plus the time between it and its own Set. */
  lemma BoundedStaleness(ws: seq<World>, ss: seq<Step>, n: nat, pid: nat, key: string) returns (i: nat, j: nat)
    requires Trace(ws, ss) && n < |ws| && pid in ws[n].procs
    requires TtlCache.Lookup(ws[n].procs[pid].items, key, ws[n].now).Some?
    ensures j < n && OneLookup(ss, i, j) && ss[i].pid == pid && key == CacheKey(ss[i].phone, ss[i].channel)
    ensures TtlCache.Lookup(ws[n].procs[pid].items, key, ws[n].now) == Some(ss[i].answer)
    ensures Admissible(ws[i].db.rows, ss[i].phone, ss[i].channel, ss[i].answer) && ValidPhone(ss[i].phone)
    ensures ws[i].now <= ws[j].now <= ws[n].now
    ensures ws[n].now - ws[i].now <= ws[n].procs[pid].ttl + (ws[j].now - ws[i].now)
  {
    i, j := EntryOrigin(ws, ss, n, pid, key);
    assert Next(ws[i], ss[i], ws[i + 1]);
    TimeFlows(ws, ss, i, j);
    TimeFlows(ws, ss, j, n);
  }

  /** A write that may change the rows of a number. */
  predicate Touches(s: Step, phone: string) {
    s.Write? && (s.req.SyncTss? || WritesOnly(s.req, phone))
  }

  lemma {:induction false} Untouched(ws: seq<World>, ss: seq<Step>, a: nat, b: nat, phone: string)
    requires Trace(ws, ss) && a <= b < |ws| && forall m | a <= m < b :: !Touches(ss[m], phone)
    ensures SameNumber(ws[a].db.rows, ws[b].db.rows, phone)
    decreases b
  {
    if a < b {
      Untouched(ws, ss, a, b - 1, phone);
      var w, s := ws[b - 1], ss[b - 1];
      assert Next(w, s, ws[b]);
      if s.Write? { ApplyFrame(w.db, s.req, w.now, phone); }
    }
  }

  /** Every lookup Sets what it read within `gap`. */
  ghost predicate PromptFills(ws: seq<World>, ss: seq<Step>, gap: nat)
    requires |ws| == |ss| + 1
  {
    forall i: nat, j: nat :: OneLookup(ss, i, j) ==> ws[j].now - ws[i].now <= gap
  }

  /** So caches settle: when nothing has touched a number for the TTL plus the longest read-to-Set gap, every process
      serves it correctly again, although traceback, porting and TSS writes invalidate no cache. */
  lemma CachesSettle(ws: seq<World>, ss: seq<Step>, n: nat, pid: nat, phone: string, channel: string, gap: nat)
    requires Trace(ws, ss) && n < |ws| && pid in ws[n].procs && ValidPhone(phone)
    requires TtlCache.Lookup(ws[n].procs[pid].items, CacheKey(phone, channel), ws[n].now).Some?
    requires PromptFills(ws, ss, gap)
    requires forall m | 0 <= m < n :: Touches(ss[m], phone) ==> ws[m].now < ws[n].now - ws[n].procs[pid].ttl - gap
    ensures Admissible(ws[n].db.rows, phone, channel,
                       TtlCache.Lookup(ws[n].procs[pid].items, CacheKey(phone, channel), ws[n].now).value)
  {
    var key := CacheKey(phone, channel);
    var i, j := BoundedStaleness(ws, ss, n, pid, key);
    KeyPrefixIff(phone, phone, channel);
    KeyPrefixIff(phone, ss[i].phone, ss[i].channel);
    assert ss[i].phone == phone && ss[i].channel == channel;
    forall m | i <= m < n ensures !Touches(ss[m], phone) {
      TimeFlows(ws, ss, i, m);
    }
    Untouched(ws, ss, i, n, phone);
    AdmissibleFrame(ws[i].db.rows, ws[n].db.rows, phone, channel, ss[i].answer);
  }

  // ------------------------------------------------ exactness by invalidation

  /** Before `n`, every write that may change this number was followed by this process's invalidation of it. */
  ghost predicate FollowedUp(ss: seq<Step>, n: nat, pid: nat, phone: string)
    requires n <= |ss|
  {
    forall m | 0 <= m < n && Touches(ss[m], phone) :: exists q :: m < q < n && ss[q] == Invalidate(pid, phone)
  }

  /** With every write followed up, an entry is right now exactly when its answer was still right as Set stored it, and
      by then the writes so far had been followed up. */
  lemma EntryExactIff(ws: seq<World>, ss: seq<Step>, n: nat, pid: nat, phone: string, channel: string)
    returns (i: nat, j: nat)
    requires Trace(ws, ss) && n < |ws| && pid in ws[n].procs && ValidPhone(phone)
    requires CacheKey(phone, channel) in ws[n].procs[pid].items && FollowedUp(ss, n, pid, phone)
    ensures j < n && OneLookup(ss, i, j) && ss[i].pid == pid && ss[i].phone == phone && ss[i].channel == channel
    ensures FollowedUp(ss, j, pid, phone)
    ensures ws[n].procs[pid].items[CacheKey(phone, channel)].value == ss[i].answer
    ensures Admissible(ws[n].db.rows, phone, channel, ss[i].answer) <==>
            Admissible(ws[j].db.rows, phone, channel, ss[i].answer)
  {
    hide Admissible, SameNumber;
    i, j := EntryOrigin(ws, ss, n, pid, CacheKey(phone, channel));
    OriginIs(ws, ss, i, phone, channel);
    forall m | 0 <= m < j && Touches(ss[m], phone)
      ensures exists q :: m < q < j && ss[q] == Invalidate(pid, phone)
    {
      var q :| m < q < n && ss[q] == Invalidate(pid, phone);
      assert q != j;
    }
    UntouchedSince(ss, j, n, pid, phone);
    Untouched(ws, ss, j, n, phone);
    AdmissibleBoth(ws[j].db.rows, ws[n].db.rows, phone, channel, ss[i].answer);
  }

  lemma UntouchedSince(ss: seq<Step>, j: nat, n: nat, pid: nat, phone: string)
    requires j < n <= |ss| && ss[j].Fill? && FollowedUp(ss, n, pid, phone)
    requires forall m | j < m < n :: ss[m] != Invalidate(pid, phone)
    ensures forall m | j <= m < n :: !Touches(ss[m], phone)
  {
  }

  lemma OriginIs(ws: seq<World>, ss: seq<Step>, i: nat, phone: string, channel: string)
    requires Trace(ws, ss) && i < |ss| && ss[i].Read? && ValidPhone(phone)
    requires CacheKey(phone, channel) == CacheKey(ss[i].phone, ss[i].channel)
    ensures ss[i].phone == phone && ss[i].channel == channel
    ensures Admissible(ws[i].db.rows, phone, channel, ss[i].answer)
  {
    hide Admissible;
    assert Next(ws[i], ss[i], ws[i + 1]);
    KeyPrefixIff(phone, phone, channel);
    KeyPrefixIff(phone, ss[i].phone, ss[i].channel);
  }

  lemma AdmissibleBoth(t: Table, t': Table, phone: string, channel: string, r: Response)
    requires SameNumber(t, t', phone)
    ensures Admissible(t, phone, channel, r) <==> Admissible(t', phone, channel, r)
  {
    hide Admissible;
    if Admissible(t, phone, channel, r) { AdmissibleFrame(t, t', phone, channel, r); }
    if Admissible(t', phone, channel, r) { AdmissibleFrame(t', t, phone, channel, r); }
  }

  /** What a Set stores is there after it. */
  lemma FillStores(ws: seq<World>, ss: seq<Step>, i: nat, j: nat)
    requires Trace(ws, ss) && OneLookup(ss, i, j)
    ensures ss[i].pid in ws[j + 1].procs
    ensures
      var items, key := ws[j + 1].procs[ss[i].pid].items, CacheKey(ss[i].phone, ss[i].channel);
      key in items && items[key].value == ss[i].answer
    ensures ws[j + 1].db == ws[j].db && ValidPhone(ss[i].phone)
  {
    hide Admissible;
    assert Next(ws[j], ss[j], ws[j + 1]);
    assert Next(ws[i], ss[i], ws[i + 1]);
    var pid, rid := ss[i].pid, ss[i].rid;
    var k := ReadOf(ws, ss, j, pid, rid);
    assert Concerns(ss[i], pid, rid) && k == i;
  }

  /** Whenever its writes have been followed up, everything this process caches for the number is right. */
  ghost predicate ExactWhenFollowedUp(ws: seq<World>, ss: seq<Step>, pid: nat, phone: string)
    requires |ws| == |ss| + 1
  {
    forall n: nat, channel: string | n < |ws| && pid in ws[n].procs && FollowedUp(ss, n, pid, phone) ::
      CacheKey(phone, channel) in ws[n].procs[pid].items ==>
        Admissible(ws[n].db.rows, phone, channel, ws[n].procs[pid].items[CacheKey(phone, channel)].value)
  }

  /** No lookup of the number by this process stores an answer that followed-up writes have outdated since its read. */
  ghost predicate NoOutdatedFill(ws: seq<World>, ss: seq<Step>, pid: nat, phone: string)
    requires |ws| == |ss| + 1
  {
    forall i: nat, j: nat | OneLookup(ss, i, j) && ss[i].pid == pid && ss[i].phone == phone ::
      FollowedUp(ss, j, pid, phone) ==> Admissible(ws[j].db.rows, phone, ss[i].channel, ss[i].answer)
  }

  /** When invalidation makes a concurrent cache exact: over every interleaving, exactly when no lookup stores an
      outdated answer after the invalidation that should have removed it. */
  lemma {:induction false} InvalidationIsExactIff(ws: seq<World>, ss: seq<Step>, pid: nat, phone: string)
    requires Trace(ws, ss) && ValidPhone(phone)
    ensures ExactWhenFollowedUp(ws, ss, pid, phone) <==> NoOutdatedFill(ws, ss, pid, phone)
  {
    hide Admissible, Trace, Next;
    assert |ws| == |ss| + 1 by { TraceShape(ws, ss); }
    if NoOutdatedFill(ws, ss, pid, phone) {
      forall n: nat, channel: string
        | n < |ws| && pid in ws[n].procs && FollowedUp(ss, n, pid, phone)
          && CacheKey(phone, channel) in ws[n].procs[pid].items
        ensures Admissible(ws[n].db.rows, phone, channel, ws[n].procs[pid].items[CacheKey(phone, channel)].value)
      {
        var i, j := EntryExactIff(ws, ss, n, pid, phone, channel);
      }
    }
    if ExactWhenFollowedUp(ws, ss, pid, phone) {
      forall i: nat, j: nat
        | OneLookup(ss, i, j) && ss[i].pid == pid && ss[i].phone == phone && FollowedUp(ss, j, pid, phone)
        ensures Admissible(ws[j].db.rows, phone, ss[i].channel, ss[i].answer)
      {
        FillStores(ws, ss, i, j);
        StillFollowedUp(ss, i, j, phone);
      }
    }
  }

  lemma TraceShape(ws: seq<World>, ss: seq<Step>)
    requires Trace(ws, ss)
    ensures |ws| == |ss| + 1
  {
  }

  lemma StillFollowedUp(ss: seq<Step>, i: nat, j: nat, phone: string)
    requires OneLookup(ss, i, j) && FollowedUp(ss, j, ss[i].pid, phone)
    ensures FollowedUp(ss, j + 1, ss[i].pid, phone)
  {
    forall m | 0 <= m < j + 1 && Touches(ss[m], phone)
      ensures exists q :: m < q < j + 1 && ss[q] == Invalidate(ss[i].pid, phone)
    {
      var q :| m < q < j && ss[q] == Invalidate(ss[i].pid, phone);
    }
  }

  /** No write that may change the number falls between the two halves of one of this process's lookups of it. */
  ghost predicate RaceFree(ss: seq<Step>, pid: nat, phone: string) {
    forall i: nat, j: nat, m | OneLookup(ss, i, j) && ss[i].pid == pid && ss[i].phone == phone && i < m < j ::
      !Touches(ss[m], phone)
  }

  /** So without such races, following every write by an invalidation keeps the cache exact. */
  lemma RaceFreeIsExact(ws: seq<World>, ss: seq<Step>, pid: nat, phone: string)
    requires Trace(ws, ss) && ValidPhone(phone) && RaceFree(ss, pid, phone)
    ensures ExactWhenFollowedUp(ws, ss, pid, phone)
  {
    hide Admissible, Next, SameNumber;
    forall i: nat, j: nat | OneLookup(ss, i, j) && ss[i].pid == pid && ss[i].phone == phone
      ensures Admissible(ws[j].db.rows, phone, ss[i].channel, ss[i].answer)
    {
      FillStores(ws, ss, i, j);
      OriginIs(ws, ss, i, phone, ss[i].channel);
      Untouched(ws, ss, i, j, phone);
      AdmissibleBoth(ws[i].db.rows, ws[j].db.rows, phone, ss[i].channel, ss[i].answer);
    }
    InvalidationIsExactIff(ws, ss, pid, phone);
  }

  // ------------------------------------------------- the bound cannot be zero

  /** One process with one cache and at most one lookup under way, at instant 0. */
  function OneProcess(db: Db, ttl: nat, maxSize: nat, items: Items<Response>, inFlight: map<nat, Reading>): World {
    World(0, db, map[0 := Process(ttl, maxSize, items, inFlight)])
  }

  lemma FillEmpty(db: Db, ttl: nat, maxSize: nat, r: Reading)
    ensures Next(OneProcess(db, ttl, maxSize, map[], map[0 := r]), Fill(0, 0),
                 OneProcess(db, ttl, maxSize, map[CacheKey(r.phone, r.channel) := Entry(r.answer, ttl)], map[]))
  {
    var key, e := CacheKey(r.phone, r.channel), Entry(r.answer, ttl);
    var none: Items<Response> := map[];
    assert SubItems(none, none) && |none| == |none| - Dropped(|none|, maxSize) && map[key := e] == none[key := e];
    var inFlight: map<nat, Reading> := map[0 := r];
    assert inFlight - {0} == map[];
  }

  lemma ReadFirst(db: Db, ttl: nat, maxSize: nat, r: Reading)
    requires ValidPhone(r.phone) && Admissible(db.rows, r.phone, r.channel, r.answer)
    ensures Next(OneProcess(db, ttl, maxSize, map[], map[]), Read(0, 0, r.phone, r.channel, r.answer),
                 OneProcess(db, ttl, maxSize, map[], map[0 := r]))
  {
  }

  lemma InvalidateNothing(db: Db, ttl: nat, maxSize: nat, r: Reading)
    ensures Next(OneProcess(db, ttl, maxSize, map[], map[0 := r]), Invalidate(0, r.phone),
                 OneProcess(db, ttl, maxSize, map[], map[0 := r]))
  {
    var none: Items<Response> := map[];
    assert WithoutPrefix(none, r.phone + ":") == none;
  }

  lemma AddedIsHit(phone: string, r: Request)
    requires ValidPhone(phone) && Normalize(phone) == phone && r == AddNumber(phone, "local", "voice", "", 7, 1)
    ensures !Hit(map[], phone, "voice") && Hit(Apply(Db(map[], map[]), r, 0).db.rows, phone, "voice")
  {
    assert AddError(r).None? && AddKey(r) == Key(phone, Voice);
    assert Matches(Apply(Db(map[], map[]), r, 0).db.rows, Key(phone, Voice), phone, "voice");
  }

  /** Within one process, an add that commits and invalidates between another request's read and its Set leaves a live
      entry that no lookup of the table would give: invalidation alone does not make a concurrent cache exact. */
  lemma StaleDespiteInvalidation(phone: string, ttl: nat, maxSize: nat) returns (ws: seq<World>, ss: seq<Step>)
    requires ValidPhone(phone) && Normalize(phone) == phone
    ensures Trace(ws, ss) && |ss| == 4 && ss[1].Write? && ss[1].req.AddNumber? && ss[2] == Invalidate(0, phone)
    ensures 0 in ws[4].procs
    ensures TtlCache.Lookup(ws[4].procs[0].items, CacheKey(phone, "voice"), ws[4].now) ==
            Some(MissResponse(phone, "voice"))
    ensures !Admissible(ws[4].db.rows, phone, "voice", MissResponse(phone, "voice"))
  {
    hide Normalize, ValidPhone, Apply, ProcessNext, Hit;
    var miss := MissResponse(phone, "voice");
    var r := AddNumber(phone, "local", "voice", "", 7, 1);
    var before := Db(map[], map[]);
    var after := Apply(before, r, 0).db;
    var w0 := OneProcess(before, ttl, maxSize, map[], map[]);
    var w1 := OneProcess(before, ttl, maxSize, map[], map[0 := Reading(phone, "voice", miss)]);
    var w2 := OneProcess(after, ttl, maxSize, map[], map[0 := Reading(phone, "voice", miss)]);
    var w3 := OneProcess(after, ttl, maxSize, map[CacheKey(phone, "voice") := Entry(miss, ttl)], map[]);
    AddedIsHit(phone, r);
    FillEmpty(after, ttl, maxSize, Reading(phone, "voice", miss));
    ReadFirst(before, ttl, maxSize, Reading(phone, "voice", miss));
    InvalidateNothing(after, ttl, maxSize, Reading(phone, "voice", miss));
    assert Next(w1, Write(r), w2);
    ws := [w0, w1, w2, w2, w3];
    ss := [Read(0, 0, phone, "voice", miss), Write(r), Invalidate(0, phone), Fill(0, 0)];
  }
}
