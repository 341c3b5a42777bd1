/** Why re-running a bulk job, or running it on several workers at once, is harmless to the number table: the adds of
    one job leave a table that depends only on the last accepted record of each number. */
module Convergence {
  import opened Wrappers
  import opened Phone
  import opened NumberTable
  import opened Jobs

  /** The requests of a job: one organisation, user, channel and type. */
  predicate OfJob(r: Request, numberType: string, channel: string, org: int, user: int) {
    r.AddNumber? && r.numberType == numberType && r.channel == channel && r.org == org && r.user == user
  }

  predicate AllOfJob(rs: seq<Request>, numberType: string, channel: string, org: int, user: int) {
    forall i | 0 <= i < |rs| :: OfJob(rs[i], numberType, channel, org, user)
  }

  /** Timestamps aside. */
  function Erase(t: Table): Table {
    map k | k in t :: t[k].(updatedAt := 0)
  }

  function Requests(ts: seq<Timed>): (rs: seq<Request>)
    ensures |rs| == |ts| && forall i | 0 <= i < |rs| :: rs[i] == ts[i].req
  {
    seq(|ts|, i requires 0 <= i < |ts| => ts[i].req)
  }

  /** The reason in the last accepted record for a row, if there is one. */
  function LastReason(rs: seq<Request>, k: Key): Option<string> {
    if rs == [] then None
    else
      var n := |rs| - 1;
      if Adds(rs[n], k) then Some(rs[n].reason) else LastReason(rs[..n], k)
  }

  /** The row a job leaves at a key, timestamps aside. */
  function RowLeft(t: Table, k: Key, last: Option<string>, numberType: NumberType, org: int, user: int): Option<Row> {
    if last.None? then if k in t then Some(t[k].(updatedAt := 0)) else None
    else Some(if k in t then t[k].(status := Active, reason := last.value, updatedAt := 0)
              else Row(Subscriber, numberType, Active, last.value, Some(org), Some(user), None, None, 0))
  }

  function RowAt(t: Table, k: Key): Option<Row> {
    if k in t then Some(t[k].(updatedAt := 0)) else None
  }

  function TypeOf(numberType: string): NumberType {
    var t := ParseNumberType(OrDefault(numberType, "local"));
    if t.Some? then t.value else Local
  }

  lemma ApplyLeaves(db: Db, r: Request, now: int, k: Key)
    requires r.AddNumber?
    ensures Apply(db, r, now).db.registry == db.registry
    ensures RowAt(Apply(db, r, now).db.rows, k) ==
            RowLeft(db.rows, k, if Adds(r, k) then Some(r.reason) else None, TypeOf(r.numberType), r.org, r.user)
  {
  }

  /** The closed form of a run of one job's requests. */
  lemma {:induction false} RunLeaves(db: Db, ts: seq<Timed>, numberType: string, channel: string, org: int,
                                     user: int, k: Key)
    requires AllOfJob(Requests(ts), numberType, channel, org, user)
    ensures Run(db, ts).registry == db.registry
    ensures RowAt(Run(db, ts).rows, k) ==
            RowLeft(db.rows, k, LastReason(Requests(ts), k), TypeOf(numberType), org, user)
    decreases |ts|
  {
    if ts != [] {
      var n := |ts| - 1;
      var init, last := ts[..n], ts[n];
      assert Requests(init) == Requests(ts)[..n];
      RunLeaves(db, init, numberType, channel, org, user, k);
      RunLast(db, ts);
      assert OfJob(Requests(ts)[n], numberType, channel, org, user);
      ApplyLeaves(Run(db, init), last.req, last.at, k);
    }
  }

  lemma {:induction false} RunLast(db: Db, ts: seq<Timed>)
    requires ts != []
    ensures Run(db, ts) == Apply(Run(db, ts[..|ts| - 1]), ts[|ts| - 1].req, ts[|ts| - 1].at).db
  {
    var n := |ts| - 1;
    assert ts == ts[..n] + [ts[n]];
    RunAppend(db, ts[..n], [ts[n]]);
    assert [ts[n]][1..] == [];
  }

  lemma ErasedEqual(a: Table, b: Table)
    requires forall k :: RowAt(a, k) == RowAt(b, k)
    ensures Erase(a) == Erase(b)
  {
    assert forall k :: k in a <==> RowAt(a, k).Some?;
    assert forall k :: k in b <==> RowAt(b, k).Some?;
  }

  /** Two runs of one job's requests with the same last reasons leave the same tables. */
  lemma SameLastSameTable(db: Db, a: seq<Timed>, b: seq<Timed>, numberType: string, channel: string, org: int,
                          user: int)
    requires AllOfJob(Requests(a), numberType, channel, org, user)
    requires AllOfJob(Requests(b), numberType, channel, org, user)
    requires forall k :: LastReason(Requests(a), k) == LastReason(Requests(b), k)
    ensures Erase(Run(db, a).rows) == Erase(Run(db, b).rows) && Run(db, a).registry == Run(db, b).registry
  {
    forall k ensures RowAt(Run(db, a).rows, k) == RowAt(Run(db, b).rows, k) {
      RunLeaves(db, a, numberType, channel, org, user, k);
      RunLeaves(db, b, numberType, channel, org, user, k);
    }
    RunLeaves(db, a, numberType, channel, org, user, Key("", Voice));
    RunLeaves(db, b, numberType, channel, org, user, Key("", Voice));
    ErasedEqual(Run(db, a).rows, Run(db, b).rows);
  }

  // ----------------------------------------------------------- interleavings

  /** `m` interleaves `a` and `b`, each in its own order. */
  ghost predicate IsMerge(a: seq<Request>, b: seq<Request>, m: seq<Request>)
    decreases |m|
  {
    if m == [] then a == [] && b == []
    else
      var x, init := m[|m| - 1], m[..|m| - 1];
      || (a != [] && a[|a| - 1] == x && IsMerge(a[..|a| - 1], b, init))
      || (b != [] && b[|b| - 1] == x && IsMerge(a, b[..|b| - 1], init))
  }

  /** The last write to a row in an interleaving is the last write of one of its parts. */
  lemma {:induction false} MergeLast(a: seq<Request>, b: seq<Request>, m: seq<Request>, k: Key)
    requires IsMerge(a, b, m)
    ensures LastReason(m, k) == LastReason(a, k) || LastReason(m, k) == LastReason(b, k)
    ensures LastReason(m, k).None? ==> LastReason(a, k).None? && LastReason(b, k).None?
    decreases |m|
  {
    if m != [] {
      var x, init := m[|m| - 1], m[..|m| - 1];
      if a != [] && a[|a| - 1] == x && IsMerge(a[..|a| - 1], b, init) {
        MergeLast(a[..|a| - 1], b, init, k);
      } else {
        MergeLast(a, b[..|b| - 1], init, k);
      }
    }
  }

  lemma {:induction false} MergeOfJob(a: seq<Request>, b: seq<Request>, m: seq<Request>, numberType: string,
                                      channel: string, org: int, user: int)
    requires IsMerge(a, b, m)
    requires AllOfJob(a, numberType, channel, org, user) && AllOfJob(b, numberType, channel, org, user)
    ensures AllOfJob(m, numberType, channel, org, user)
    decreases |m|
  {
    if m != [] {
      var x, init := m[|m| - 1], m[..|m| - 1];
      if a != [] && a[|a| - 1] == x && IsMerge(a[..|a| - 1], b, init) {
        MergeOfJob(a[..|a| - 1], b, init, numberType, channel, org, user);
      } else {
        MergeOfJob(a, b[..|b| - 1], init, numberType, channel, org, user);
      }
    }
  }

  /** `m` interleaves `n` workers that each run all of `rs`. */
  ghost predicate ByWorkers(rs: seq<Request>, n: nat, m: seq<Request>) {
    if n <= 1 then n == 1 && m == rs else exists others :: ByWorkers(rs, n - 1, others) && IsMerge(rs, others, m)
  }

  lemma {:induction false} WorkersLast(rs: seq<Request>, n: nat, m: seq<Request>, numberType: string, channel: string,
                                       org: int, user: int)
    requires ByWorkers(rs, n, m) && AllOfJob(rs, numberType, channel, org, user)
    ensures AllOfJob(m, numberType, channel, org, user)
    ensures forall k :: LastReason(m, k) == LastReason(rs, k)
  {
    if n > 1 {
      var others :| ByWorkers(rs, n - 1, others) && IsMerge(rs, others, m);
      WorkersLast(rs, n - 1, others, numberType, channel, org, user);
      MergeOfJob(rs, others, m, numberType, channel, org, user);
      forall k ensures LastReason(m, k) == LastReason(rs, k) {
        MergeLast(rs, others, m, k);
      }
    }
  }

  lemma JobRequestsAreOfJob(p: Payload, org: int, user: int)
    ensures AllOfJob(JobRequests(p, org, user), p.numberType, p.channel, org, user)
  {
  }

  /** Convergence: however many workers pick the same job and however their adds interleave, the table they leave is the
      table one worker leaves. */
  lemma WorkersConverge(db: Db, p: Payload, org: int, user: int, n: nat, race: seq<Timed>, alone: seq<Timed>)
    requires Requests(alone) == JobRequests(p, org, user)
    requires ByWorkers(JobRequests(p, org, user), n, Requests(race))
    ensures Erase(Run(db, race).rows) == Erase(Run(db, alone).rows) && Run(db, race).registry == Run(db, alone).registry
  {
    var rs := JobRequests(p, org, user);
    JobRequestsAreOfJob(p, org, user);
    WorkersLast(rs, n, Requests(race), p.numberType, p.channel, org, user);
    SameLastSameTable(db, race, alone, p.numberType, p.channel, org, user);
  }

  // ------------------------------------------------------------------ crashes

  lemma {:induction false} LastAfter(a: seq<Request>, b: seq<Request>, k: Key)
    ensures LastReason(a + b, k) == if LastReason(b, k).Some? then LastReason(b, k) else LastReason(a, k)
    decreases |b|
  {
    if b == [] {
      assert a + b == a;
    } else {
      assert (a + b)[..|a + b| - 1] == a + b[..|b| - 1];
      LastAfter(a, b[..|b| - 1], k);
    }
  }

  lemma PrefixThenAll(rs: seq<Request>, done: nat)
    requires done <= |rs|
    ensures forall k :: LastReason(rs[..done] + rs, k) == LastReason(rs, k)
  {
    hide LastReason;
    assert rs[..done] + rs[done..] == rs;
    forall k ensures LastReason(rs[..done] + rs, k) == LastReason(rs, k) {
      LastAfter(rs[..done], rs, k);
      LastAfter(rs[..done], rs[done..], k);
    }
  }

  lemma RequestsAppend(a: seq<Timed>, b: seq<Timed>)
    ensures Requests(a + b) == Requests(a) + Requests(b)
  {
  }

  /** Re-running a job from the start after a crash at any record leaves the table of a run that never crashed. */
  lemma {:induction false} CrashAndRerun(db: Db, p: Payload, org: int, user: int, done: nat, crashed: seq<Timed>,
                                         rerun: seq<Timed>, alone: seq<Timed>)
    requires done <= |p.records| && Requests(crashed) == JobRequests(p, org, user)[..done]
    requires Requests(rerun) == JobRequests(p, org, user) && Requests(alone) == JobRequests(p, org, user)
    ensures Erase(Run(Run(db, crashed), rerun).rows) == Erase(Run(db, alone).rows)
  {
    hide Run, Erase, LastReason, JobRequests, OfJob;
    var rs := JobRequests(p, org, user);
    JobRequestsAreOfJob(p, org, user);
    RunAppend(db, crashed, rerun);
    RequestsAppend(crashed, rerun);
    PrefixThenAll(rs, done);
    SameLastSameTable(db, crashed + rerun, alone, p.numberType, p.channel, org, user);
  }

  /** Stamps requests with times. */
  function At(rs: seq<Request>, now: int): (ts: seq<Timed>)
    ensures Requests(ts) == rs
  {
    var ts := seq(|rs|, i requires 0 <= i < |rs| => Timed(rs[i], now));
    assert Requests(ts) == rs;
    ts
  }

  lemma {:induction false} MergeAfter(a: seq<Request>, b: seq<Request>)
    ensures IsMerge(a, b, b + a)
    decreases |a| + |b|
  {
    var m := b + a;
    if a != [] {
      MergeAfter(a[..|a| - 1], b);
      assert m[..|m| - 1] == b + a[..|a| - 1];
    } else if b != [] {
      MergeAfter(a, b[..|b| - 1]);
      assert m == b && b[..|b| - 1] + a == b[..|b| - 1];
    }
  }

  /** Every interleaving of a partial run with a full one leaves the full run's table, on every database. */
  ghost predicate AlwaysConverges(part: seq<Request>, full: seq<Request>) {
    forall db: Db, race: seq<Timed>, alone: seq<Timed> ::
      IsMerge(part, full, Requests(race)) && Requests(alone) == full ==>
      Erase(Run(db, race).rows) == Erase(Run(db, alone).rows)
  }

  /** Each row the partial run wrote, it wrote last with the reason the full run ends with. */
  ghost predicate EndsAgree(part: seq<Request>, full: seq<Request>) {
    forall k :: LastReason(part, k).Some? ==> LastReason(part, k) == LastReason(full, k)
  }

  lemma AgreementConverges(part: seq<Request>, full: seq<Request>, numberType: string, channel: string, org: int,
                           user: int)
    requires AllOfJob(part, numberType, channel, org, user) && AllOfJob(full, numberType, channel, org, user)
    requires EndsAgree(part, full)
    ensures AlwaysConverges(part, full)
  {
    forall db: Db, race: seq<Timed>, alone: seq<Timed> | IsMerge(part, full, Requests(race)) && Requests(alone) == full
      ensures Erase(Run(db, race).rows) == Erase(Run(db, alone).rows)
    {
      MergeOfJob(part, full, Requests(race), numberType, channel, org, user);
      forall k ensures LastReason(Requests(race), k) == LastReason(full, k) {
        MergeLast(part, full, Requests(race), k);
      }
      SameLastSameTable(db, race, alone, numberType, channel, org, user);
    }
  }

  /** A worker that crashes while another runs the whole job is harmless exactly when the reasons it wrote last are the
      ones the full run ends with; a number listed twice with two reasons can otherwise keep the earlier one. */
  lemma CrashDuringRaceIff(part: seq<Request>, full: seq<Request>, numberType: string, channel: string, org: int,
                           user: int)
    requires AllOfJob(part, numberType, channel, org, user) && AllOfJob(full, numberType, channel, org, user)
    ensures AlwaysConverges(part, full) <==> EndsAgree(part, full)
  {
    if EndsAgree(part, full) {
      AgreementConverges(part, full, numberType, channel, org, user);
    }
    if AlwaysConverges(part, full) {
      forall k | LastReason(part, k).Some? ensures LastReason(part, k) == LastReason(full, k) {
        LateCrashDecides(part, full, numberType, channel, org, user, k);
      }
    }
  }

  /** The interleaving that decides: the partial run's writes all come after the full run's. */
  lemma {:induction false} LateCrashDecides(part: seq<Request>, full: seq<Request>, numberType: string,
                                            channel: string, org: int, user: int, k: Key)
    requires AllOfJob(part, numberType, channel, org, user) && AllOfJob(full, numberType, channel, org, user)
    requires AlwaysConverges(part, full) && LastReason(part, k).Some?
    ensures LastReason(part, k) == LastReason(full, k)
  {
    var db := Db(map[], map[]);
    var race, alone := At(full + part, 0), At(full, 0);
    MergeAfter(part, full);
    assert Erase(Run(db, race).rows) == Erase(Run(db, alone).rows);
    RunLeaves(db, race, numberType, channel, org, user, k);
    RunLeaves(db, alone, numberType, channel, org, user, k);
    LastAfter(full, part, k);
    ErasedAt(Run(db, race).rows, Run(db, alone).rows, k);
  }

  /** A worker of this job that dies after record `done` while another runs the job to the end. */
  lemma {:induction false} JobCrashIff(p: Payload, org: int, user: int, done: nat)
    requires done <= |p.records|
    ensures
      var rs := JobRequests(p, org, user);
      AlwaysConverges(rs[..done], rs) <==> EndsAgree(rs[..done], rs)
  {
    hide AlwaysConverges, EndsAgree, JobRequests;
    JobRequestsAreOfJob(p, org, user);
    var rs := JobRequests(p, org, user);
    CrashDuringRaceIff(rs[..done], rs, p.numberType, p.channel, org, user);
  }

  /** No row is listed with two different reasons. */
  ghost predicate OneReasonEach(rs: seq<Request>) {
    forall i, j, k | 0 <= i < j < |rs| && Adds(rs[i], k) && Adds(rs[j], k) :: rs[i].reason == rs[j].reason
  }

  lemma {:induction false} LastReasonOccurs(rs: seq<Request>, k: Key) returns (i: nat)
    requires LastReason(rs, k).Some?
    ensures i < |rs| && Adds(rs[i], k) && LastReason(rs, k) == Some(rs[i].reason)
  {
    var n := |rs| - 1;
    if Adds(rs[n], k) { i := n; } else { i := LastReasonOccurs(rs[..n], k); }
  }

  lemma {:induction false} ListedHasReason(rs: seq<Request>, i: nat, k: Key)
    requires i < |rs| && Adds(rs[i], k)
    ensures LastReason(rs, k).Some? && LastReason(rs[..i + 1], k) == Some(rs[i].reason)
  {
    var n := |rs| - 1;
    assert rs[..i + 1][..i] == rs[..i];
    if i < n {
      ListedHasReason(rs[..n], i, k);
      assert rs[..n][..i + 1] == rs[..i + 1];
    } else {
      assert rs[..i + 1] == rs;
    }
  }

  lemma OneReasonAgrees(rs: seq<Request>, done: nat)
    requires OneReasonEach(rs) && done <= |rs|
    ensures EndsAgree(rs[..done], rs)
  {
    forall k | LastReason(rs[..done], k).Some? ensures LastReason(rs[..done], k) == LastReason(rs, k) {
      var i := LastReasonOccurs(rs[..done], k);
      ListedHasReason(rs, i, k);
      var j := LastReasonOccurs(rs, k);
      assert rs[i].reason == rs[j].reason by {
        if i < j { assert Adds(rs[i], k) && Adds(rs[j], k); }
        if j < i { assert Adds(rs[j], k) && Adds(rs[i], k); }
      }
    }
  }

  /** A job is safe against a crash at any record beside another full run, on every database and in every interleaving,
      exactly when it lists no number with two different reasons. */
  lemma {:induction false} JobCrashSafeIff(p: Payload, org: int, user: int)
    ensures
      var rs := JobRequests(p, org, user);
      (forall done: nat | done <= |rs| :: AlwaysConverges(rs[..done], rs)) <==> OneReasonEach(rs)
  {
    hide AlwaysConverges, JobRequests, Adds, LastReason;
    var rs := JobRequests(p, org, user);
    JobSize(p, org, user);
    if OneReasonEach(rs) {
      forall done: nat | done <= |rs| ensures AlwaysConverges(rs[..done], rs) {
        OneReasonAgrees(rs, done);
        JobCrashIff(p, org, user, done);
      }
    }
    if forall done: nat | done <= |rs| :: AlwaysConverges(rs[..done], rs) {
      forall i, j, k | 0 <= i < j < |rs| && Adds(rs[i], k) && Adds(rs[j], k)
        ensures rs[i].AddNumber? && rs[j].AddNumber? && rs[i].reason == rs[j].reason
      {
        JobCrashIff(p, org, user, i + 1);
        JobCrashIff(p, org, user, j + 1);
        ListedHasReason(rs, i, k);
        ListedHasReason(rs, j, k);
      }
    }
  }

  lemma JobSize(p: Payload, org: int, user: int)
    ensures |JobRequests(p, org, user)| == |p.records|
    ensures forall i | 0 <= i < |p.records| :: JobRequests(p, org, user)[i].AddNumber?
  {
  }

  /** A job that can be enqueued and is not: one number listed twice with two reasons, the first worker dead between
      them. */
  lemma {:induction false} TwoReasonsDiverge(phone: string, first: string, second: string, org: int, user: int)
    requires ValidPhone(Normalize(phone)) && first != second
    ensures
      var rs := JobRequests(Payload([Record(phone, first), Record(phone, second)], "voice", "local"), org, user);
      !AlwaysConverges(rs[..1], rs)
  {
    hide AlwaysConverges;
    var p := Payload([Record(phone, first), Record(phone, second)], "voice", "local");
    var rs, k := JobRequests(p, org, user), Key(Normalize(phone), Voice);
    assert Adds(rs[0], k) && Adds(rs[1], k);
    ListedHasReason(rs, 0, k);
    ListedHasReason(rs, 1, k);
    assert rs[..2] == rs;
    JobCrashIff(p, org, user, 1);
  }

  lemma ErasedAt(a: Table, b: Table, k: Key)
    requires Erase(a) == Erase(b)
    ensures RowAt(a, k) == RowAt(b, k)
  {
    assert k in Erase(a) <==> k in a;
    assert k in Erase(b) <==> k in b;
  }
}
