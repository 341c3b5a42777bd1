/** The number registry and the TSS sync that reads it (internal/service/features.go). */
module TssSync {
  import opened Wrappers
  import opened Collections
  import opened Phone
  import opened NumberTable
  import opened Outcomes

  // ------------------------------------------------------------ the registry

  /** A porting event that gives the number an owner. */
  predicate Assigns(r: Request, phone: string) {
    r.NpacEvent? && ValidPhone(phone) && Normalize(r.phone) == phone && Leaves(r.newStatus)
  }

  lemma ApplyRegistry(db: Db, r: Request, now: int, phone: string)
    ensures
      var g := Apply(db, r, now).db.registry;
      if Assigns(r, phone) then
        phone in g && g[phone].owner == r.newOwner && g[phone].status == r.newStatus
        && if phone in db.registry then SameKind(g[phone], db.registry[phone])
           else g[phone].numberType == Local && !g[phone].textEnabled
      else (phone in g <==> phone in db.registry) && (phone in g ==> g[phone] == db.registry[phone])
  {
    hide Normalize;
  }

  predicate SameKind(a: RegEntry, b: RegEntry) {
    a.numberType == b.numberType && a.textEnabled == b.textEnabled
  }

  /** Over every run the registered numbers keep their kind and new ones are local. */
  lemma {:induction false} RunRegistry(db: Db, rs: seq<Timed>, phone: string)
    ensures
      var g := Run(db, rs).registry;
      if phone in db.registry then phone in g && SameKind(g[phone], db.registry[phone])
      else phone in g ==> g[phone].numberType == Local
    decreases |rs|
  {
    if rs != [] {
      hide Apply;
      ApplyRegistry(db, rs[0].req, rs[0].at, phone);
      RunRegistry(Apply(db, rs[0].req, rs[0].at).db, rs[1..], phone);
    }
  }

  lemma {:induction false} UnassignedRun(db: Db, rs: seq<Timed>, phone: string)
    requires forall i | 0 <= i < |rs| :: !Assigns(rs[i].req, phone)
    requires phone in db.registry
    ensures phone in Run(db, rs).registry && Run(db, rs).registry[phone] == db.registry[phone]
    decreases |rs|
  {
    if rs != [] {
      hide Apply;
      ApplyRegistry(db, rs[0].req, rs[0].at, phone);
      UnassignedRun(Apply(db, rs[0].req, rs[0].at).db, rs[1..], phone);
    }
  }

  /** After any run the registry shows the owner and status of the number's last assigning event. */
  lemma OwnerAfterRun(db: Db, rs: seq<Timed>, n: nat, phone: string)
    requires n < |rs| && Assigns(rs[n].req, phone) && forall i | n < i < |rs| :: !Assigns(rs[i].req, phone)
    ensures
      var g := Run(db, rs).registry;
      phone in g && g[phone].owner == rs[n].req.newOwner && g[phone].status == rs[n].req.newStatus
  {
    hide Apply, Assigns;
    var head, tail := rs[..n], rs[n..];
    assert rs == head + tail;
    RunAppend(db, head, tail);
    var mid := Run(db, head);
    ApplyRegistry(mid, rs[n].req, rs[n].at, phone);
    assert Run(mid, tail) == Run(Apply(mid, rs[n].req, rs[n].at).db, tail[1..]);
    UnassignedRun(Apply(mid, rs[n].req, rs[n].at).db, tail[1..], phone);
  }

  // ---------------------------------------------------------------- TSS sync

  /** What one successful sync adds: a text row for each selected number and nothing else. */
  lemma {:induction false} SyncAdds(db: Db, now: int)
    requires Apply(db, SyncTss, now).answer.Success?
    ensures
      var t' := Apply(db, SyncTss, now).db.rows;
      && (forall phone :: Qualifies(db, phone) ==> Hit(t', phone, "text"))
      && |t'| == |db.rows| + Apply(db, SyncTss, now).answer.value
      && (forall k :: k in db.rows ==> k in t' && t'[k] == db.rows[k])
      && (forall k :: k in t' && k !in db.rows ==> Qualifies(db, k.phone) && t'[k].dataset == TssRegistry)
  {
    var t' := Apply(db, SyncTss, now).db.rows;
    forall phone | Qualifies(db, phone) ensures Hit(t', phone, "text") {
      assert Matches(t', Key(phone, Text), phone, "text");
    }
    SyncCount(db, now);
  }

  /** The sync in the caller's terms: refused or not, and every column of what it leaves. */
  lemma {:induction false} SyncOutcomeIs(db: Db, now: int)
    ensures SyncOutcome(db, now, Apply(db, SyncTss, now).answer, Apply(db, SyncTss, now).db)
  {
    hide SyncedTo;
    RefusedIff(db);
    if !SyncConflicts(db) {
      SyncCount(db, now);
      SyncedColumns(db, now);
    }
  }

  lemma RefusedIff(db: Db)
    ensures SyncConflicts(db) <==>
            exists phone :: IsListed(db, phone) && Key(phone, Text) in db.rows
                            && db.rows[Key(phone, Text)].dataset != TssRegistry
  {
    if phone :| IsListed(db, phone) && Key(phone, Text) in db.rows && db.rows[Key(phone, Text)].dataset != TssRegistry {
      assert Qualifies(db, phone);
    }
    if SyncConflicts(db) {
      var phone :| phone in db.registry && Qualifies(db, phone) && Key(phone, Text) in db.rows;
      assert IsListed(db, phone);
    }
  }

  lemma SyncedColumns(db: Db, now: int)
    requires !SyncConflicts(db)
    ensures SyncedTo(db, Apply(db, SyncTss, now).db, now)
  {
    forall k ensures k in InsertTss(db, now) <==> k in db.rows || (k.channel == Text && IsListed(db, k.phone)) {
      assert k.channel == Text ==> k == Key(k.phone, Text);
    }
  }

  lemma SyncedKeysAreNew(db: Db)
    requires !SyncConflicts(db)
    ensures forall phone :: phone in Qualifying(db) ==> Key(phone, Text) !in db.rows
  {
  }

  lemma SyncCount(db: Db, now: int)
    requires !SyncConflicts(db)
    ensures |InsertTss(db, now)| == |db.rows| + |Qualifying(db)|
  {
    hide Qualifying, Qualifies, SyncConflicts;
    var added := set phone | phone in Qualifying(db) :: Key(phone, Text);
    TextKeysCount(Qualifying(db), added);
    SyncedKeysAreNew(db);
    KeysOfUnion(db.rows, InsertTss(db, now), added);
  }

  lemma KeysOfUnion(t: Table, t': Table, added: set<Key>)
    requires t'.Keys == t.Keys + added && t.Keys !! added
    ensures |t'| == |t| + |added|
  {
    assert |t'.Keys| == |t.Keys| + |added|;
  }

  lemma {:induction false} TextKeysCount(phones: set<string>, keys: set<Key>)
    requires keys == set phone | phone in phones :: Key(phone, Text)
    ensures |keys| == |phones|
    decreases phones
  {
    if phones != {} {
      var p :| p in phones;
      TextKeysCount(phones - {p}, keys - {Key(p, Text)});
    }
  }

  /** A second sync right after a successful one adds no row and changes nothing. */
  lemma SyncTwice(db: Db, now: int, later: int)
    requires Apply(db, SyncTss, now).answer.Success?
    ensures Apply(Apply(db, SyncTss, now).db, SyncTss, later) == Effect(Success(0), Apply(db, SyncTss, now).db)
  {
    var db' := Apply(db, SyncTss, now).db;
    assert forall phone :: !Qualifies(db', phone);
    assert Qualifying(db') == {};
    assert InsertTss(db', later) == db'.rows;
  }

  // ------------------------------------------------ which numbers are selected

  /** A number as far as the sync is concerned: not a toll-free number without text; one with no text row yet; one whose
      text row the sync wrote; one whose text row belongs to another dataset. */
  datatype TextClass = Unlisted | Wanted | Synced | Claimed

  predicate Listed(g: Registry, phone: string) {
    phone in g && g[phone].numberType == TollFree && !g[phone].textEnabled
  }

  function ClassOf(db: Db, phone: string): TextClass {
    if !Listed(db.registry, phone) then Unlisted
    else if Key(phone, Text) !in db.rows then Wanted
    else if db.rows[Key(phone, Text)].dataset == TssRegistry then Synced
    else Claimed
  }

  /** A number never changes whether it is listed; only a sync that succeeds makes it synced, and an add or a traceback
      of its text row claims it for good. */
  function NextClass(c: TextClass, r: Request, phone: string, clear: bool): TextClass {
    var k := Key(phone, Text);
    match c
    case Unlisted => Unlisted
    case Claimed => Claimed
    case Synced => if Traces(r, k) then Claimed else Synced
    case Wanted => if Traces(r, k) || Adds(r, k) then Claimed else if r.SyncTss? && clear then Synced else Wanted
  }

  lemma QualifiesIff(db: Db, phone: string)
    ensures Qualifies(db, phone) <==> ClassOf(db, phone) == Wanted || ClassOf(db, phone) == Claimed
  {
  }

  lemma ConflictIff(db: Db)
    ensures SyncConflicts(db) <==> exists phone :: ClassOf(db, phone) == Claimed
  {
    if SyncConflicts(db) {
      var phone :| phone in db.registry && Qualifies(db, phone) && Key(phone, Text) in db.rows;
      assert ClassOf(db, phone) == Claimed;
    }
  }

  /** The sync fails exactly when some number is claimed, and a failure changes nothing. */
  lemma SyncFailsIff(db: Db, now: int)
    ensures Apply(db, SyncTss, now).answer.Failure? <==> exists phone :: ClassOf(db, phone) == Claimed
    ensures Apply(db, SyncTss, now).answer.Failure? ==> Apply(db, SyncTss, now).db == db
  {
    ConflictIff(db);
  }

  lemma {:induction false} ListedStays(db: Db, r: Request, now: int, phone: string)
    ensures Listed(Apply(db, r, now).db.registry, phone) <==> Listed(db.registry, phone)
  {
    hide Apply;
    ApplyRegistry(db, r, now, phone);
  }

  /** Every request, on every database, moves every number through the four classes as `NextClass` says. */
  lemma {:induction false} ApplyClass(db: Db, r: Request, now: int, phone: string)
    ensures ClassOf(Apply(db, r, now).db, phone) == NextClass(ClassOf(db, phone), r, phone, !SyncConflicts(db))
  {
    hide Normalize, ParseNumberType, Covers, SyncConflicts, Listed;
    ListedStays(db, r, now, phone);
    if r.SyncTss? { SyncedClass(db, now, phone); }
  }

  lemma SyncedClass(db: Db, now: int, phone: string)
    ensures ClassOf(Apply(db, SyncTss, now).db, phone) ==
            NextClass(ClassOf(db, phone), SyncTss, phone, !SyncConflicts(db))
  {
    QualifiesIff(db, phone);
  }

  /** When one request makes a number eligible for the sync that was not: exactly when a traceback takes over the text
      row an earlier sync wrote for it. */
  lemma NewlyQualifiesIff(db: Db, r: Request, now: int, phone: string)
    ensures !Qualifies(db, phone) && Qualifies(Apply(db, r, now).db, phone) <==>
            ClassOf(db, phone) == Synced && Traces(r, Key(phone, Text))
  {
    hide Apply, Qualifies, ClassOf, Traces, Adds;
    ApplyClass(db, r, now, phone);
    QualifiesIff(db, phone);
    QualifiesIff(Apply(db, r, now).db, phone);
  }

  /** And over runs: a number that becomes eligible was synced, and then traced, on the way. */
  lemma {:induction false} NewlyQualifiesCause(db: Db, rs: seq<Timed>, phone: string) returns (i: nat)
    requires !Qualifies(db, phone) && Qualifies(Run(db, rs), phone)
    ensures i < |rs| && ClassOf(Run(db, rs[..i]), phone) == Synced && Traces(rs[i].req, Key(phone, Text))
    decreases |rs|
  {
    hide Apply, Qualifies, ClassOf, Traces;
    var db' := Apply(db, rs[0].req, rs[0].at).db;
    NewlyQualifiesIff(db, rs[0].req, rs[0].at, phone);
    if Qualifies(db', phone) {
      i := 0;
      assert rs[..0] == [];
    } else {
      var j := NewlyQualifiesCause(db', rs[1..], phone);
      i := j + 1;
      assert rs[..i][1..] == rs[1..][..j];
      assert rs[..i][0] == rs[0];
    }
  }

  lemma {:induction false} ClaimedStays(db: Db, rs: seq<Timed>, phone: string)
    requires ClassOf(db, phone) == Claimed
    ensures ClassOf(Run(db, rs), phone) == Claimed
    decreases |rs|
  {
    if rs != [] {
      hide Apply, ClassOf;
      ApplyClass(db, rs[0].req, rs[0].at, phone);
      ClaimedStays(Apply(db, rs[0].req, rs[0].at).db, rs[1..], phone);
    }
  }

  /** Once a sync has failed, every sync after any run of the five writers fails too. */
  lemma {:induction false} SyncStuck(db: Db, now: int, rs: seq<Timed>, later: int)
    requires Apply(db, SyncTss, now).answer.Failure?
    ensures Apply(Run(db, rs), SyncTss, later).answer == Failure(SyncConflict)
  {
    hide ClassOf, SyncConflicts;
    SyncFailsIff(db, now);
    var phone :| ClassOf(db, phone) == Claimed;
    ClaimedStays(db, rs, phone);
    SyncFailsIff(Run(db, rs), later);
  }

  /** An add of the text row of a listed number that has none, or a traceback of a listed number's text row. */
  ghost predicate Breaks(db: Db, r: Request) {
    exists phone ::
      && Listed(db.registry, phone)
      && (Traces(r, Key(phone, Text)) || (Adds(r, Key(phone, Text)) && Key(phone, Text) !in db.rows))
  }

  /** Those requests, and no others, turn a working sync into a failing one. */
  lemma SyncBreaksIff(db: Db, r: Request, now: int)
    requires !SyncConflicts(db)
    ensures SyncConflicts(Apply(db, r, now).db) <==> Breaks(db, r)
  {
    hide Apply, Traces, Adds, Listed, SyncConflicts;
    var db' := Apply(db, r, now).db;
    ConflictIff(db);
    ConflictIff(db');
    forall phone
      ensures ClassOf(db', phone) == Claimed <==>
              Listed(db.registry, phone)
              && (Traces(r, Key(phone, Text)) || (Adds(r, Key(phone, Text)) && Key(phone, Text) !in db.rows))
    {
      ApplyClass(db, r, now, phone);
    }
  }

  /** Over runs: the sync fails after a run exactly when it failed before it or some request on the way broke it. */
  lemma {:induction false} SyncFailsAfterRunIff(db: Db, rs: seq<Timed>)
    ensures SyncConflicts(Run(db, rs)) <==>
            SyncConflicts(db) || exists i | 0 <= i < |rs| :: Breaks(Run(db, rs[..i]), rs[i].req)
  {
    hide Apply, SyncConflicts, Breaks, ClassOf;
    if rs != [] {
      var n := |rs| - 1;
      var before := Run(db, rs[..n]);
      SyncFailsAfterRunIff(db, rs[..n]);
      LastStep(db, rs);
      forall i | 0 <= i < n ensures rs[..n][..i] == rs[..i] && rs[..n][i] == rs[i] {
      }
      if SyncConflicts(before) {
        ConflictStays(before, rs[n].req, rs[n].at);
      } else {
        SyncBreaksIff(before, rs[n].req, rs[n].at);
      }
    }
  }

  lemma ConflictStays(db: Db, r: Request, now: int)
    requires SyncConflicts(db)
    ensures SyncConflicts(Apply(db, r, now).db)
  {
    hide Apply, SyncConflicts, ClassOf;
    ConflictIff(db);
    var phone :| ClassOf(db, phone) == Claimed;
    ApplyClass(db, r, now, phone);
    ConflictIff(Apply(db, r, now).db);
  }

  lemma LastStep(db: Db, rs: seq<Timed>)
    requires rs != []
    ensures Run(db, rs) == Apply(Run(db, rs[..|rs| - 1]), rs[|rs| - 1].req, rs[|rs| - 1].at).db
  {
    hide Apply;
    var n := |rs| - 1;
    assert rs == rs[..n] + [rs[n]];
    RunAppend(db, rs[..n], [rs[n]]);
    assert [rs[n]][1..] == [];
  }

  /** The shortest broken history: one toll-free number without text, a sync, a traceback of its text row. */
  lemma SyncBroken(phone: string)
    requires ValidPhone(phone) && Normalize(phone) == phone
    ensures
      var db := Db(map[], map[phone := RegEntry(None, TollFree, "assigned", false)]);
      var synced := Apply(db, SyncTss, 1);
      var traced := Apply(synced.db, IngestItg(phone, "i", "t", "text"), 2);
      && synced.answer == Success(1) && traced.answer.Success?
      && Apply(traced.db, SyncTss, 3) == Effect(Failure(SyncConflict), traced.db)
  {
    hide Normalize, ValidPhone;
    var db := Db(map[], map[phone := RegEntry(None, TollFree, "assigned", false)]);
    assert Qualifying(db) == {phone};
    var synced := Apply(db, SyncTss, 1);
    assert ClassOf(synced.db, phone) == Synced by {
      ApplyClass(db, SyncTss, 1, phone);
    }
    var r := IngestItg(phone, "i", "t", "text");
    ApplyClass(synced.db, r, 2, phone);
    assert ParseChannel("text") == Some(Text);
    SyncFailsIff(Apply(synced.db, r, 2).db, 3);
  }

  // ------------------------------------------------------- row by row

  function TssRow(now: int): Row {
    Row(TssRegistry, TollFree, Active, TSS_REASON, None, None, None, None, now)
  }

  /** The statement as the engine executes it: the selected numbers in some order, each inserted unless its key exists;
      the first collision undoes everything. */
  function InsertEach(t: Table, phones: seq<string>, now: int): Option<Table> {
    if phones == [] then Some(t)
    else
      var n := |phones| - 1;
      var before := InsertEach(t, phones[..n], now);
      if before.None? || Key(phones[n], Text) in before.value then None
      else Some(before.value[Key(phones[n], Text) := TssRow(now)])
  }

  lemma {:induction false} InsertEachIs(t: Table, phones: seq<string>, now: int)
    requires Distinct(phones)
    ensures InsertEach(t, phones, now).None? <==> exists phone :: phone in phones && Key(phone, Text) in t
    ensures
      var r := InsertEach(t, phones, now);
      r.Some? ==>
        && (forall k :: k in r.value <==> k in t || (k.channel == Text && k.phone in phones))
        && (forall k :: k in r.value ==> r.value[k] == if k in t then t[k] else TssRow(now))
  {
    if phones != [] {
      var n := |phones| - 1;
      InsertEachIs(t, phones[..n], now);
      assert phones == phones[..n] + [phones[n]];
    }
  }

  lemma InsertEachStep(t: Table, phones: seq<string>, n: nat, now: int)
    requires n < |phones| && InsertEach(t, phones[..n], now).Some?
    ensures InsertEach(t, phones[..n + 1], now) ==
            var before := InsertEach(t, phones[..n], now).value;
            if Key(phones[n], Text) in before then None else Some(before[Key(phones[n], Text) := TssRow(now)])
    ensures InsertEach(t, phones[..n + 1], now).None? ==> InsertEach(t, phones, now).None?
  {
    assert phones[..n + 1][..n] == phones[..n];
    if InsertEach(t, phones[..n + 1], now).None? { CollisionStays(t, phones, n + 1, now); }
  }

  lemma {:induction false} CollisionStays(t: Table, phones: seq<string>, n: nat, now: int)
    requires n <= |phones| && InsertEach(t, phones[..n], now).None?
    ensures InsertEach(t, phones, now).None?
    decreases |phones|
  {
    if n == |phones| {
      assert phones[..n] == phones;
    } else {
      assert phones[..|phones| - 1][..n] == phones[..n];
      CollisionStays(t, phones[..|phones| - 1], n, now);
    }
  }

  /** Whatever the order, the rows inserted one by one leave exactly what the statement promises: all, or none. */
  lemma SyncInAnyOrder(db: Db, order: seq<string>, now: int)
    requires Distinct(order)
    requires forall phone :: phone in order <==> Qualifies(db, phone)
    ensures
      var r := InsertEach(db.rows, order, now);
      Apply(db, SyncTss, now) ==
      if r.None? then Effect(Failure(SyncConflict), db) else Effect(Success(|order|), db.(rows := r.value))
  {
    InsertEachIs(db.rows, order, now);
    assert Qualifying(db) == Elements(order);
    DistinctIff(order);
    var r := InsertEach(db.rows, order, now);
    if r.Some? {
      assert forall k :: k in r.value <==> k in InsertTss(db, now);
      assert r.value == InsertTss(db, now);
    }
  }
}
