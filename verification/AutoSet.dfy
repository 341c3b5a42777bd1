/** The auto set: the numbers listed because a porting event took them out of service (internal/service/features.go). */
module AutoSet {
  import opened Wrappers
  import opened Phone
  import opened NumberTable

  predicate Recognised(r: Request, phone: string) {
    r.NpacEvent? && ValidPhone(phone) && Normalize(r.phone) == phone && (Joins(r.newStatus) || Leaves(r.newStatus))
  }

  datatype Phase = NotAuto | AutoOn | AutoOff

  /** One row as far as the auto set is concerned. */
  function PhaseOf(t: Table, k: Key): Phase {
    if k !in t || t[k].dataset != Auto then NotAuto else if t[k].status == Active then AutoOn else AutoOff
  }

  ghost predicate InAutoSet(t: Table, phone: string) {
    exists k: Key :: k.phone == phone && PhaseOf(t, k) == AutoOn
  }

  /** A joining event writes the voice row, a leaving event retires every active auto row of the number, a traceback
      takes a row over, and a subscriber's add revives a retired one. */
  function NextPhase(ph: Phase, r: Request, k: Key): Phase {
    if Recognised(r, k.phone) then
      if Joins(r.newStatus) then if k.channel == Voice then AutoOn else ph
      else if ph == AutoOn then AutoOff else ph
    else if Traces(r, k) then NotAuto
    else if Adds(r, k) && ph == AutoOff then AutoOn
    else ph
  }

  /** Every request, on every database, moves every row through the three phases as `NextPhase` says. */
  lemma {:induction false} ApplyPhase(db: Db, r: Request, now: int, k: Key)
    ensures PhaseOf(Apply(db, r, now).db.rows, k) == NextPhase(PhaseOf(db.rows, k), r, k)
  {
    hide Normalize, ParseNumberType, Covers;
    if r.RemoveNumber? {
      assert k in db.rows && db.rows[k].dataset == Auto ==>
        !Removable(db.rows, k, Normalize(r.phone), OrDefault(r.channel, "voice"), r.org);
    }
  }

  /** Of the adds and traceback ingests of this row, an add comes first. */
  function FirstTouchIsAdd(rs: seq<Timed>, k: Key): bool {
    if rs == [] then false
    else if Traces(rs[0].req, k) then false
    else Adds(rs[0].req, k) || FirstTouchIsAdd(rs[1..], k)
  }

  predicate Traced(rs: seq<Timed>, k: Key) {
    exists i | 0 <= i < |rs| :: Traces(rs[i].req, k)
  }

  /** What requests other than recognised events make of a row: on at the end, given its phase at the start. */
  predicate EndsOn(ph: Phase, rs: seq<Timed>, k: Key) {
    !Traced(rs, k) && (ph == AutoOn || (ph == AutoOff && FirstTouchIsAdd(rs, k)))
  }

  lemma TracedStep(rs: seq<Timed>, k: Key)
    requires rs != []
    ensures Traced(rs, k) <==> Traces(rs[0].req, k) || Traced(rs[1..], k)
  {
    hide Traces;
    if Traced(rs[1..], k) {
      var i :| 0 <= i < |rs[1..]| && Traces(rs[1..][i].req, k);
      assert Traces(rs[i + 1].req, k);
    }
    if Traced(rs, k) && !Traces(rs[0].req, k) {
      var i :| 0 <= i < |rs| && Traces(rs[i].req, k);
      assert Traces(rs[1..][i - 1].req, k);
    }
  }

  lemma {:induction false} QuietPhase(db: Db, rs: seq<Timed>, k: Key)
    requires forall i | 0 <= i < |rs| :: !Recognised(rs[i].req, k.phone)
    ensures PhaseOf(Run(db, rs).rows, k) == AutoOn <==> EndsOn(PhaseOf(db.rows, k), rs, k)
    decreases |rs|
  {
    if rs != [] {
      hide Apply, Traces, Adds, PhaseOf, Traced;
      ApplyPhase(db, rs[0].req, rs[0].at, k);
      QuietPhase(Apply(db, rs[0].req, rs[0].at).db, rs[1..], k);
      TracedStep(rs, k);
      assert !Recognised(rs[0].req, k.phone);
      NotBoth(rs[0].req, k);
    } else {
      assert !Traced(rs, k);
    }
  }

  lemma NotBoth(r: Request, k: Key)
    ensures !(Traces(r, k) && Adds(r, k))
  {
  }

  lemma RunOne(db: Db, rs: seq<Timed>, n: nat)
    requires n < |rs|
    ensures Run(db, rs[..n + 1]) == Apply(Run(db, rs[..n]), rs[n].req, rs[n].at).db
    ensures Run(db, rs) == Run(Run(db, rs[..n + 1]), rs[n + 1..])
  {
    hide Apply;
    assert rs == rs[..n + 1] + rs[n + 1..] && rs[..n + 1] == rs[..n] + [rs[n]];
    RunAppend(db, rs[..n + 1], rs[n + 1..]);
    RunAppend(db, rs[..n], [rs[n]]);
    assert [rs[n]][1..] == [];
  }

  /** The auto set after any run on any database whose last recognised event for the number is `rs[n]`: exactly the rows
      on after that event and not traced since, or retired by then and revived by an add before any traceback. */
  lemma AutoSetAfterRun(db: Db, rs: seq<Timed>, n: nat, phone: string)
    requires n < |rs| && Recognised(rs[n].req, phone)
    requires forall i | n < i < |rs| :: !Recognised(rs[i].req, phone)
    ensures
      var t := Run(db, rs[..n + 1]).rows;
      && (if Joins(rs[n].req.newStatus) then PhaseOf(t, Key(phone, Voice)) == AutoOn else !InAutoSet(t, phone))
      && (InAutoSet(Run(db, rs).rows, phone) <==>
          exists k: Key :: k.phone == phone && EndsOn(PhaseOf(t, k), rs[n + 1..], k))
  {
    hide Apply, Run, PhaseOf, EndsOn;
    RunOne(db, rs, n);
    var mid := Run(db, rs[..n + 1]);
    forall k: Key | k.phone == phone
      ensures PhaseOf(mid.rows, k) == NextPhase(PhaseOf(Run(db, rs[..n]).rows, k), rs[n].req, k)
      ensures PhaseOf(Run(db, rs).rows, k) == AutoOn <==> EndsOn(PhaseOf(mid.rows, k), rs[n + 1..], k)
    {
      ApplyPhase(Run(db, rs[..n]), rs[n].req, rs[n].at, k);
      QuietPhase(mid, rs[n + 1..], k);
    }
  }

  /** A later add or traceback ingest of the number itself, on any channel. */
  predicate TouchesNumber(r: Request, phone: string) {
    exists c :: Adds(r, Key(phone, c)) || Traces(r, Key(phone, c))
  }

  /** The history promise, on any database: unless the number itself was added or traced after it, the last recognised
      event decides. */
  lemma {:induction false} NpacHistory(db: Db, rs: seq<Timed>, n: nat, phone: string)
    requires n < |rs| && Recognised(rs[n].req, phone)
    requires forall i | n < i < |rs| :: !Recognised(rs[i].req, phone) && !TouchesNumber(rs[i].req, phone)
    ensures InAutoSet(Run(db, rs).rows, phone) <==> Joins(rs[n].req.newStatus)
  {
    hide Run, PhaseOf, Adds, Traces;
    AutoSetAfterRun(db, rs, n, phone);
    var tail := rs[n + 1..];
    forall k: Key, i | k.phone == phone && 0 <= i < |tail| ensures !Adds(tail[i].req, k) && !Traces(tail[i].req, k) {
      assert tail[i] == rs[n + 1 + i] && k == Key(phone, k.channel);
      assert !TouchesNumber(rs[n + 1 + i].req, phone);
    }
    forall k: Key | k.phone == phone { NoTouch(tail, k); }
    var voice, t := Key(phone, Voice), Run(db, rs[..n + 1]).rows;
    assert PhaseOf(t, voice) == AutoOn ==> EndsOn(PhaseOf(t, voice), tail, voice);
  }

  lemma {:induction false} NoTouch(rs: seq<Timed>, k: Key)
    requires forall i | 0 <= i < |rs| :: !Adds(rs[i].req, k)
    ensures !FirstTouchIsAdd(rs, k)
  {
    if rs != [] { NoTouch(rs[1..], k); }
  }

  // ------------------------------------------------- what a traceback is worth

  /** The automaton run over a whole history. */
  function PhaseAfter(ph: Phase, rs: seq<Timed>, k: Key): Phase {
    if rs == [] then ph else NextPhase(PhaseAfter(ph, rs[..|rs| - 1], k), rs[|rs| - 1].req, k)
  }

  lemma {:induction false} RunPhase(db: Db, rs: seq<Timed>, k: Key)
    ensures PhaseOf(Run(db, rs).rows, k) == PhaseAfter(PhaseOf(db.rows, k), rs, k)
  {
    hide Apply, PhaseOf, NextPhase;
    if rs != [] {
      var n := |rs| - 1;
      RunPhase(db, rs[..n], k);
      RunOne(db, rs, n);
      assert rs[..n + 1] == rs;
      ApplyPhase(Run(db, rs[..n]), rs[n].req, rs[n].at, k);
    }
  }

  predicate JoinsRow(r: Request, k: Key) {
    Recognised(r, k.phone) && Joins(r.newStatus) && k.channel == Voice
  }

  predicate LeavesRow(r: Request, k: Key) {
    Recognised(r, k.phone) && !Joins(r.newStatus)
  }

  /** A joining event took the row at `m`, no traceback took it back before the leaving event at `n`, and since then
      nothing joined, traced or added it. */
  predicate RetiredBy(rs: seq<Timed>, k: Key, m: int, n: int) {
    && 0 <= m < n < |rs| && JoinsRow(rs[m].req, k) && LeavesRow(rs[n].req, k)
    && (forall i | m < i < n :: !Traces(rs[i].req, k))
    && forall i | n < i < |rs| :: !JoinsRow(rs[i].req, k) && !Traces(rs[i].req, k) && !Adds(rs[i].req, k)
  }

  ghost predicate TakenBy(rs: seq<Timed>, k: Key, m: int) {
    0 <= m < |rs| && JoinsRow(rs[m].req, k) && forall i | m < i < |rs| :: !Traces(rs[i].req, k)
  }

  lemma {:induction false} AutoIff(rs: seq<Timed>, k: Key)
    ensures PhaseAfter(NotAuto, rs, k) != NotAuto <==> exists m :: TakenBy(rs, k, m)
  {
    hide Recognised, Traces, Adds;
    if rs != [] {
      var n := |rs| - 1;
      AutoIff(rs[..n], k);
      LastMoves(rs[n].req, k);
      if m :| TakenBy(rs[..n], k, m) { assert !Traces(rs[n].req, k) ==> TakenBy(rs, k, m); }
      if m :| TakenBy(rs, k, m) { assert m < n ==> TakenBy(rs[..n], k, m); }
      assert JoinsRow(rs[n].req, k) ==> TakenBy(rs, k, n);
    }
  }

  /** How one request moves the phase, by its kind. */
  lemma LastMoves(r: Request, k: Key)
    ensures JoinsRow(r, k) ==> !Traces(r, k) && forall ph :: NextPhase(ph, r, k) == AutoOn
    ensures LeavesRow(r, k) ==>
              !Traces(r, k) && forall ph :: NextPhase(ph, r, k) == if ph == NotAuto then NotAuto else AutoOff
    ensures Traces(r, k) ==> forall ph :: NextPhase(ph, r, k) == NotAuto
    ensures Adds(r, k) ==> forall ph :: NextPhase(ph, r, k) == if ph == AutoOff then AutoOn else ph
    ensures !JoinsRow(r, k) && !LeavesRow(r, k) && !Traces(r, k) && !Adds(r, k) ==>
              forall ph :: NextPhase(ph, r, k) == ph
  {
  }

  lemma {:induction false} OffIff(rs: seq<Timed>, k: Key)
    ensures PhaseAfter(NotAuto, rs, k) == AutoOff <==> exists m, n :: RetiredBy(rs, k, m, n)
  {
    hide Recognised, Traces, Adds, NextPhase;
    if rs != [] {
      var n := |rs| - 1;
      var r, before := rs[n].req, rs[..n];
      OffIff(before, k);
      AutoIff(before, k);
      LastMoves(r, k);
      if m, x :| RetiredBy(before, k, m, x) {
        assert !JoinsRow(r, k) && !Traces(r, k) && !Adds(r, k) ==> RetiredBy(rs, k, m, x);
      }
      if LeavesRow(r, k) {
        if m :| TakenBy(before, k, m) { assert RetiredBy(rs, k, m, n); }
      }
      if m, x :| RetiredBy(rs, k, m, x) {
        if x < n { assert RetiredBy(before, k, m, x); } else { assert TakenBy(before, k, m); }
      }
    }
  }

  /** A row that started as an active traceback is one, or belongs to the auto set. */
  predicate TracedOrAuto(t: Table, k: Key) {
    k in t && ((t[k].dataset == Itg && t[k].status == Active) || (t[k].dataset == Auto && t[k].status != Pending))
  }

  lemma ApplyTraced(db: Db, r: Request, now: int, k: Key)
    requires TracedOrAuto(db.rows, k)
    ensures TracedOrAuto(Apply(db, r, now).db.rows, k)
  {
    hide Normalize, ParseNumberType, Covers;
  }

  lemma {:induction false} RunTraced(db: Db, rs: seq<Timed>, k: Key)
    requires TracedOrAuto(db.rows, k)
    ensures TracedOrAuto(Run(db, rs).rows, k)
    decreases |rs|
  {
    if rs != [] {
      hide Apply, TracedOrAuto;
      ApplyTraced(db, rs[0].req, rs[0].at, k);
      RunTraced(Apply(db, rs[0].req, rs[0].at).db, rs[1..], k);
    }
  }

  /** How long a traceback protects: an active traceback row is off after a run exactly when a joining event took it
      over, a later leaving event found it still taken, and nothing joined, traced or added it since. Rows on `text` and
      `both` are therefore never switched off. */
  lemma TracedRowOffIff(db: Db, rs: seq<Timed>, k: Key)
    requires k in db.rows && db.rows[k].dataset == Itg && db.rows[k].status == Active
    ensures k in Run(db, rs).rows
    ensures Run(db, rs).rows[k].status != Active <==> exists m, n :: RetiredBy(rs, k, m, n)
  {
    hide Run, RetiredBy, PhaseAfter;
    RunTraced(db, rs, k);
    RunPhase(db, rs, k);
    OffIff(rs, k);
  }

  /** The shortest such history: traced, disconnected, ported. The number is no longer blocked. */
  lemma TracebackUndone(phone: string)
    requires ValidPhone(phone) && Normalize(phone) == phone
    ensures
      var db := Apply(Db(map[], map[]), IngestItg(phone, "i", "t", "voice"), 0).db;
      var rs := [Timed(NpacEvent(phone, "disconnected", None), 1), Timed(NpacEvent(phone, "ported", None), 2)];
      Hit(db.rows, phone, "voice") && !Hit(Run(db, rs).rows, phone, "voice")
  {
    hide Normalize, ValidPhone;
    var k := Key(phone, Voice);
    var db := Apply(Db(map[], map[]), IngestItg(phone, "i", "t", "voice"), 0).db;
    assert ParseChannel("voice") == Some(Voice);
    assert db.rows.Keys == {k};
    assert Matches(db.rows, k, phone, "voice");
    var a, b := NpacEvent(phone, "disconnected", None), NpacEvent(phone, "ported", None);
    var db1 := Apply(db, a, 1).db;
    assert db1.rows.Keys == {k};
    var db2 := Apply(db1, b, 2).db;
    assert db2.rows.Keys == {k} && db2.rows[k].status == Inactive;
    RunTwo(db, Timed(a, 1), Timed(b, 2));
  }

  lemma RunTwo(db: Db, x: Timed, y: Timed)
    ensures Run(db, [x, y]) == Apply(Apply(db, x.req, x.at).db, y.req, y.at).db
  {
    hide Apply;
    var db' := Apply(db, x.req, x.at).db;
    assert [x, y][1..] == [y] && [y][1..] == [];
    assert Run(db', [y]) == Run(Apply(db', y.req, y.at).db, []);
  }
}
