/** What every run of the five writers keeps, and which request can switch a number off. */
module TableRuns {
  import opened Wrappers
  import opened Phone
  import opened NumberTable

  // ------------------------------------------------------------------ safety

  /** No row disappears and no row changes hands. */
  ghost predicate Keeps(t: Table, t': Table) {
    forall k :: k in t ==>
      k in t' && t'[k].orgId == t[k].orgId && t'[k].userId == t[k].userId && t'[k].numberType == t[k].numberType
  }

  /** Traceback and TSS rows are active. */
  predicate SourceActive(row: Row) {
    row.dataset == Itg || row.dataset == TssRegistry ==> row.status == Active
  }

  ghost predicate SourcesActive(t: Table) {
    forall k :: k in t ==> SourceActive(t[k])
  }

  /** Only ten-digit numbers are stored. */
  ghost predicate ValidNumbers(db: Db) {
    && (forall phone :: phone in db.registry ==> ValidPhone(phone))
    && (forall k :: k in db.rows ==> ValidPhone(k.phone))
  }

  lemma ApplyAt(db: Db, r: Request, now: int, k: Key)
    ensures
      var t, t' := db.rows, Apply(db, r, now).db.rows;
      && (k in t ==> k in t' && t'[k].orgId == t[k].orgId && t'[k].userId == t[k].userId
                     && t'[k].numberType == t[k].numberType)
      && (k in t' && (k in t ==> SourceActive(t[k])) ==> SourceActive(t'[k]))
  {
    hide Normalize, ParseNumberType, Covers;
  }

  /** Each of the five writers keeps the key set and the ownership of every row, and the activity of traceback and TSS
      rows wherever it holds. */
  lemma {:induction false} ApplySafe(db: Db, r: Request, now: int)
    ensures Keeps(db.rows, Apply(db, r, now).db.rows)
    ensures SourcesActive(db.rows) ==> SourcesActive(Apply(db, r, now).db.rows)
  {
    hide Apply, SourceActive;
    forall k { ApplyAt(db, r, now, k); }
  }

  /** Over every run, from any table: the key set only grows and ownership never changes. */
  lemma {:induction false} RunKeeps(db: Db, rs: seq<Timed>)
    ensures Keeps(db.rows, Run(db, rs).rows)
    decreases |rs|
  {
    if rs != [] {
      hide Apply;
      ApplySafe(db, rs[0].req, rs[0].at);
      RunKeeps(Apply(db, rs[0].req, rs[0].at).db, rs[1..]);
    }
  }

  /** Over every run: a row that is a traceback or TSS row at the end is active. A traceback row that has meanwhile
      moved to the auto set need not be. */
  lemma {:induction false} RunSafe(db: Db, rs: seq<Timed>)
    requires SourcesActive(db.rows)
    ensures SourcesActive(Run(db, rs).rows)
    decreases |rs|
  {
    if rs != [] {
      hide Apply, SourcesActive;
      ApplySafe(db, rs[0].req, rs[0].at);
      RunSafe(Apply(db, rs[0].req, rs[0].at).db, rs[1..]);
    }
  }

  lemma ApplyValid(db: Db, r: Request, now: int)
    requires ValidNumbers(db)
    ensures ValidNumbers(Apply(db, r, now).db)
  {
    hide Normalize, ParseNumberType, ValidPhone, Covers;
  }

  /** Over every run: every writer checks or copies its number, so only ten-digit numbers are ever stored. */
  lemma {:induction false} RunValid(db: Db, rs: seq<Timed>)
    requires ValidNumbers(db)
    ensures ValidNumbers(Run(db, rs))
    decreases |rs|
  {
    if rs != [] {
      hide Apply, ValidNumbers;
      ApplyValid(db, rs[0].req, rs[0].at);
      RunValid(Apply(db, rs[0].req, rs[0].at).db, rs[1..]);
    }
  }

  /** Over every run: no writer ever leaves a row pending that was not pending at the start. */
  lemma {:induction false} RunNeverPends(db: Db, rs: seq<Timed>, k: Key)
    requires k in Run(db, rs).rows && Run(db, rs).rows[k].status == Pending
    ensures k in db.rows && db.rows[k].status == Pending
    decreases |rs|
  {
    if rs != [] {
      hide Apply;
      RunNeverPends(Apply(db, rs[0].req, rs[0].at).db, rs[1..], k);
      NeverPends(db, rs[0].req, rs[0].at, k);
    }
  }

  lemma NeverPends(db: Db, r: Request, now: int, k: Key)
    requires k in Apply(db, r, now).db.rows && Apply(db, r, now).db.rows[k].status == Pending
    ensures k in db.rows && db.rows[k].status == Pending
  {
    hide Normalize, ParseNumberType, Covers;
  }

  /** Every row a request changes or creates carries the instant of that request. */
  lemma ChangesAreStamped(db: Db, r: Request, now: int, k: Key)
    requires k in Apply(db, r, now).db.rows
    ensures
      var row := Apply(db, r, now).db.rows[k];
      (k in db.rows && row == db.rows[k]) || row.updatedAt == now
  {
    hide Normalize, ParseNumberType, Covers;
  }

  // ------------------------------------------------- who may deactivate a row

  /** The two ways an active row is switched off: its own organisation removes it, or its number is back in service. */
  predicate SwitchesOff(r: Request, k: Key, row: Row) {
    match r
    case RemoveNumber(phone, channel, org) =>
      && ValidChannel(OrDefault(channel, "voice"))
      && k.phone == Normalize(phone) && Covers(k.channel, OrDefault(channel, "voice"))
      && row.dataset == Subscriber && row.orgId == Some(org)
    case NpacEvent(phone, status, _) =>
      ValidPhone(Normalize(phone)) && k.phone == Normalize(phone) && Leaves(status) && row.dataset == Auto
    case _ => false
  }

  lemma SwitchesOffIff(db: Db, r: Request, now: int, k: Key)
    requires k in db.rows && db.rows[k].status == Active
    ensures k in Apply(db, r, now).db.rows
    ensures Apply(db, r, now).db.rows[k].status != Active <==> SwitchesOff(r, k, db.rows[k])
  {
    if r.RemoveNumber? && SwitchesOff(r, k, db.rows[k]) {
      assert Removable(db.rows, k, Normalize(r.phone), OrDefault(r.channel, "voice"), r.org);
    }
  }

  /** A row active before a run and not after it met a request that may switch it off, at that request's own table. */
  lemma {:induction false} OffNeedsCause(db: Db, rs: seq<Timed>, k: Key) returns (i: nat)
    requires k in db.rows && db.rows[k].status == Active
    requires k !in Run(db, rs).rows || Run(db, rs).rows[k].status != Active
    ensures i < |rs| && k in Run(db, rs[..i]).rows && SwitchesOff(rs[i].req, k, Run(db, rs[..i]).rows[k])
    decreases |rs|
  {
    var db' := Apply(db, rs[0].req, rs[0].at).db;
    SwitchesOffIff(db, rs[0].req, rs[0].at, k);
    if db'.rows[k].status != Active {
      i := 0;
      assert rs[..0] == [];
    } else {
      var j := OffNeedsCause(db', rs[1..], k);
      i := j + 1;
      assert rs[..i][1..] == rs[1..][..j];
      assert rs[..i][0] == rs[0];
    }
  }

  predicate AddsOrRemovesOf(r: Request, org: int) {
    (r.AddNumber? || r.RemoveNumber?) && r.org == org
  }

  /** Whatever one organisation adds and removes, rows of others and of the other datasets stay on and keep their
      dataset. */
  lemma {:induction false} OneOrgCannotSwitchOff(db: Db, rs: seq<Timed>, org: int, k: Key)
    requires forall i | 0 <= i < |rs| :: AddsOrRemovesOf(rs[i].req, org)
    requires k in db.rows && (db.rows[k].orgId != Some(org) || db.rows[k].dataset != Subscriber)
    ensures k in Run(db, rs).rows && Run(db, rs).rows[k].dataset == db.rows[k].dataset
    ensures Run(db, rs).rows[k].status == Active || Run(db, rs).rows[k].status == db.rows[k].status
    decreases |rs|
  {
    if rs != [] {
      assert AddsOrRemovesOf(rs[0].req, org);
      OneOrgCannotSwitchOff(Apply(db, rs[0].req, rs[0].at).db, rs[1..], org, k);
    }
  }

  // --------------------------------------------------------- add and remove

  /** An accepted add is found by every lookup its channel covers. */
  lemma AddThenHit(db: Db, r: Request, now: int, channel: string)
    requires r.AddNumber? && AddError(r).None? && Covers(AddKey(r).channel, channel)
    ensures Hit(Apply(db, r, now).db.rows, Normalize(r.phone), channel)
  {
    assert Matches(Apply(db, r, now).db.rows, AddKey(r), Normalize(r.phone), channel);
  }

  /** After an accepted add, the same organisation's remove of the same number and channel succeeds exactly when the add
      made a new row or the organisation already had a row to remove: a row added on top of another owner's, or of
      another dataset's, cannot be removed by the adder. */
  lemma AddThenRemoveIff(db: Db, r: Request, now: int, later: int)
    requires r.AddNumber? && AddError(r).None?
    ensures
      var ch := OrDefault(r.channel, "voice");
      Apply(Apply(db, r, now).db, RemoveNumber(r.phone, r.channel, r.org), later).answer.Success? <==>
      AddKey(r) !in db.rows || exists k :: Removable(db.rows, k, Normalize(r.phone), ch, r.org)
  {
    hide Normalize, ValidPhone, ParseNumberType;
    var ch, phone, mine := OrDefault(r.channel, "voice"), Normalize(r.phone), AddKey(r);
    var t, t' := db.rows, Apply(db, r, now).db.rows;
    assert t' == t[mine := t'[mine]] && Covers(mine.channel, ch);
    if mine !in t {
      assert Removable(t', mine, phone, ch, r.org);
    } else {
      forall k ensures Removable(t', k, phone, ch, r.org) <==> Removable(t, k, phone, ch, r.org) {
      }
    }
  }

  /** One organisation's add on top of another's row: it cannot take its own add back. */
  lemma CannotTakeBack(phone: string, owner: int, other: int)
    requires ValidPhone(Normalize(phone)) && owner != other
    ensures
      var first := AddNumber(phone, "local", "voice", "", owner, 1);
      var second := AddNumber(phone, "local", "voice", "", other, 1);
      var db := Apply(Apply(Db(map[], map[]), first, 0).db, second, 1).db;
      Apply(db, RemoveNumber(phone, "voice", other), 2).answer == Failure(NotFoundOrNotOwner)
  {
    hide Normalize, ValidPhone;
    var first := AddNumber(phone, "local", "voice", "", owner, 1);
    var second := AddNumber(phone, "local", "voice", "", other, 1);
    var db := Apply(Db(map[], map[]), first, 0).db;
    assert db.rows.Keys == {Key(Normalize(phone), Voice)};
    AddThenRemoveIff(db, second, 1, 2);
  }

  /** After a successful remove the lookup misses exactly when every active row it could find was this
      organisation's own subscriber row. */
  lemma MissAfterRemoveIff(db: Db, r: Request, now: int)
    requires r.RemoveNumber? && Apply(db, r, now).answer.Success?
    ensures
      var phone, ch := Normalize(r.phone), OrDefault(r.channel, "voice");
      !Hit(Apply(db, r, now).db.rows, phone, ch) <==>
      forall k :: Matches(db.rows, k, phone, ch) ==> db.rows[k].dataset == Subscriber && db.rows[k].orgId == Some(r.org)
  {
    var phone, ch := Normalize(r.phone), OrDefault(r.channel, "voice");
    var t' := Apply(db, r, now).db.rows;
    forall k ensures Matches(t', k, phone, ch) <==>
                     Matches(db.rows, k, phone, ch) && !Removable(db.rows, k, phone, ch, r.org) {
    }
  }

  /** Another dataset's `both` row keeps a number blocked after its owner removed its own row. */
  lemma RemoveMayStillHit(phone: string, org: int) returns (db: Db, r: Request)
    requires ValidPhone(phone) && Normalize(phone) == phone
    ensures ValidNumbers(db) && SourcesActive(db.rows) && r == RemoveNumber(phone, "voice", org)
    ensures Apply(db, r, 1).answer.Success?
    ensures Hit(Apply(db, r, 1).db.rows, phone, "voice")
  {
    var mine := Row(Subscriber, Local, Active, "", Some(org), Some(1), None, None, 0);
    var traced := Row(Itg, Local, Active, "", None, None, None, None, 0);
    db := Db(map[Key(phone, Voice) := mine, Key(phone, Both) := traced], map[]);
    r := RemoveNumber(phone, "voice", org);
    assert Removable(db.rows, Key(phone, Voice), phone, "voice", org);
    assert Apply(db, r, 1).db.rows == Deactivate(db.rows, phone, "voice", org, 1);
    assert Matches(Apply(db, r, 1).db.rows, Key(phone, Both), phone, "voice");
  }
}
