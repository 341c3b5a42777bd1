/** The bulk-job worker (internal/jobs/worker.go): the job rows, the tick that processes the oldest pending job, and the
    retry tick. The JSON payload is decoded by construction; the failure messages do not decode. */
module Jobs {
  import opened Wrappers
  import opened Phone
  import opened NumberTable
  import opened Outcomes
  import opened Services

  datatype JobStatus = JobPending | Processing | Completed | Failed

  datatype Record = Record(phone: string, reason: string)
  datatype Payload = Payload(records: seq<Record>, channel: string, numberType: string)
  datatype RowError = RowError(row: nat, phone: string, error: Error)

  /** The `result_summary` column: NULL, an encoded payload, a failure message, or a finished job's error list. */
  datatype Summary = Missing | Encoded(payload: Payload) | Message | Report(errors: seq<RowError>)

  datatype Job = Job(org: int, user: int, status: JobStatus, total: nat, processed: nat, success: nat, errors: nat,
                     summary: Summary, createdAt: int, completedAt: Option<int>)

  type JobTable = map<int, Job>

  const MAX_RETRIES := 3
  const RETRY_AFTER := 60

  /** json.Unmarshal into the payload type: a report has none of its fields, so it decodes to the empty payload. */
  function Decode(s: Summary): Option<Payload> {
    match s
    case Encoded(p) => Some(p)
    case Report(_) => Some(Payload([], "", ""))
    case _ => None
  }

  function RequestOf(p: Payload, r: Record, org: int, user: int): Request {
    AddNumber(r.phone, p.numberType, p.channel, r.reason, org, user)
  }

  /** The AddNumber calls a job makes, in order. */
  function JobRequests(p: Payload, org: int, user: int): (rs: seq<Request>)
    ensures |rs| == |p.records| && forall i | 0 <= i < |rs| :: rs[i] == RequestOf(p, p.records[i], org, user)
  {
    seq(|p.records|, i requires 0 <= i < |p.records| => RequestOf(p, p.records[i], org, user))
  }

  predicate AllAdds(rs: seq<Request>) {
    forall i | 0 <= i < |rs| :: rs[i].AddNumber?
  }

  /** The error lines of a run, rows counted from 1. */
  function RowErrors(rs: seq<Request>): seq<RowError>
    requires AllAdds(rs)
  {
    if rs == [] then []
    else
      var n := |rs| - 1;
      RowErrors(rs[..n]) + if AddError(rs[n]).Some? then [RowError(|rs|, rs[n].phone, AddError(rs[n]).value)] else []
  }

  function Accepted(rs: seq<Request>): nat
    requires AllAdds(rs)
  {
    if rs == [] then 0 else Accepted(rs[..|rs| - 1]) + if AddError(rs[|rs| - 1]).None? then 1 else 0
  }

  lemma {:induction false} EveryRowCounted(rs: seq<Request>)
    requires AllAdds(rs)
    ensures Accepted(rs) + |RowErrors(rs)| == |rs|
  {
    if rs != [] { EveryRowCounted(rs[..|rs| - 1]); }
  }

  lemma {:induction false} CountsGrow(rs: seq<Request>, a: nat, b: nat)
    requires AllAdds(rs) && a <= b <= |rs|
    ensures Accepted(rs[..a]) <= Accepted(rs[..b]) && |RowErrors(rs[..a])| <= |RowErrors(rs[..b])|
    decreases b
  {
    hide AddError, Accepted, RowErrors;
    if a < b {
      CountsGrow(rs, a, b - 1);
      CountsStep(rs, b - 1);
    }
  }

  /** The job row after the progress update at record `n`. */
  function Progressed(j: Job, rs: seq<Request>, n: nat): Job
    requires AllAdds(rs) && n <= |rs|
  {
    j.(status := Processing, processed := n, success := Accepted(rs[..n]), errors := |RowErrors(rs[..n])|)
  }

  /** The row a tick leaves of the job it picks. */
  function Finished(j: Job, at: int): Job {
    if Decode(j.summary).None? then j.(status := Failed, summary := Message, completedAt := Some(at))
    else
      var rs := JobRequests(Decode(j.summary).value, j.org, j.user);
      Progressed(j, rs, |rs|).(status := Completed, summary := Report(RowErrors(rs)), completedAt := Some(at))
  }

  /** Where progress is stored: after every hundredth record and after the last one. */
  function Checkpoints(n: nat, total: nat): seq<nat> {
    if n == 0 then [] else Checkpoints(n - 1, total) + if n % 100 == 0 || n == total then [n] else []
  }

  /** The job tables stored at those points. */
  function Snapshots(t: JobTable, id: int, j: Job, rs: seq<Request>, points: seq<nat>): seq<JobTable>
    requires AllAdds(rs) && forall i | 0 <= i < |points| :: points[i] <= |rs|
  {
    seq(|points|, i requires 0 <= i < |points| => t[id := Progressed(j, rs, points[i])])
  }

  lemma {:induction false} CheckpointsBounded(n: nat, total: nat)
    ensures forall i | 0 <= i < |Checkpoints(n, total)| :: Checkpoints(n, total)[i] <= n
  {
    if n != 0 { CheckpointsBounded(n - 1, total); }
  }

  /** Progress is stored after exactly the records whose number is a multiple of 100, and after the last, in order. */
  lemma {:induction false} CheckpointsAre(n: nat, total: nat)
    ensures forall c: nat :: c in Checkpoints(n, total) <==> 1 <= c <= n && (c % 100 == 0 || c == total)
    ensures forall i, j | 0 <= i < j < |Checkpoints(n, total)| :: Checkpoints(n, total)[i] < Checkpoints(n, total)[j]
  {
    if n != 0 {
      CheckpointsAre(n - 1, total);
      CheckpointsBounded(n - 1, total);
    }
  }

  /** The adds of a job spelled out: each record's own number and reason with the job's type, channel, organisation and
      user. */
  lemma {:induction false} JobAddsAre(p: Payload, org: int, user: int, i: nat)
    requires i < |p.records|
    ensures
      JobRequests(p, org, user)[i] ==
      AddNumber(p.records[i].phone, p.numberType, p.channel, p.records[i].reason, org, user)
  {
  }

  /** Which adds are refused, and why. */
  ghost predicate Refused(r: Request, e: Error)
    requires r.AddNumber?
  {
    if !ValidPhone(Normalize(r.phone)) then e == BadPhone
    else if r.channel !in CHANNELS then e == BadChannel
    else r.numberType !in TYPES && e == BadNumberType
  }

  ghost function RefusedRows(rs: seq<Request>): set<int>
    requires AllAdds(rs)
  {
    set i | 0 <= i < |rs| && exists e :: Refused(rs[i], e)
  }

  lemma RefusedIff(r: Request, e: Error)
    requires r.AddNumber?
    ensures Refused(r, e) <==> AddError(r) == Some(e)
  {
    hide Normalize, ValidPhone;
  }

  /** The error list has one line for each refused record, in record order, with its number counted from 1. */
  ghost predicate ErrorsShow(rs: seq<Request>, errors: seq<RowError>)
    requires AllAdds(rs)
  {
    && |errors| == |RefusedRows(rs)|
    && (forall m, l | 0 <= m < l < |errors| :: errors[m].row < errors[l].row)
    && forall m | 0 <= m < |errors| ::
         && 1 <= errors[m].row <= |rs| && errors[m].phone == rs[errors[m].row - 1].phone
         && Refused(rs[errors[m].row - 1], errors[m].error)
  }

  lemma RefusedStep(rs: seq<Request>)
    requires AllAdds(rs) && rs != []
    ensures
      var n := |rs| - 1;
      |RefusedRows(rs)| == |RefusedRows(rs[..n])| + if exists e :: Refused(rs[n], e) then 1 else 0
  {
    hide Refused;
    var n := |rs| - 1;
    var before := RefusedRows(rs[..n]);
    assert RefusedRows(rs) == if exists e :: Refused(rs[n], e) then before + {n} else before;
  }

  lemma ErrorsGrow(rs: seq<Request>, last: Request, errors: seq<RowError>, more: seq<RowError>)
    requires AllAdds(rs) && rs != [] && last == rs[|rs| - 1] && ErrorsShow(rs[..|rs| - 1], errors)
    requires forall e :: Refused(last, e) ==> more == [RowError(|rs|, last.phone, e)]
    requires more != [] ==> exists e :: Refused(last, e)
    ensures ErrorsShow(rs, errors + more)
  {
    hide Refused, RefusedRows;
    RefusedStep(rs);
    var all := errors + more;
    if more == [] { assert all == errors; }
    forall m | 0 <= m < |all|
      ensures 1 <= all[m].row <= |rs| && all[m].phone == rs[all[m].row - 1].phone
      ensures Refused(rs[all[m].row - 1], all[m].error)
    {
      if m < |errors| {
        assert all[m] == errors[m] && rs[..|rs| - 1][errors[m].row - 1] == rs[errors[m].row - 1];
      }
    }
  }

  lemma {:induction false} RowErrorsAre(rs: seq<Request>)
    requires AllAdds(rs)
    ensures ErrorsShow(rs, RowErrors(rs))
  {
    if rs == [] {
      assert RefusedRows(rs) == {};
    } else {
      hide Refused, AddError, RefusedRows, ErrorsShow;
      var n := |rs| - 1;
      RowErrorsAre(rs[..n]);
      forall e ensures Refused(rs[n], e) <==> AddError(rs[n]) == Some(e) { RefusedIff(rs[n], e); }
      var more := if AddError(rs[n]).Some? then [RowError(|rs|, rs[n].phone, AddError(rs[n]).value)] else [];
      assert AddError(rs[n]).Some? ==> Refused(rs[n], AddError(rs[n]).value);
      ErrorsGrow(rs, rs[n], RowErrors(rs[..n]), more);
    }
  }

  /** What a job whose payload decodes ends as, spelled out. */
  lemma {:induction false} FinishedShows(j: Job, p: Payload, at: int)
    requires j.summary == Encoded(p)
    ensures
      var f, rs := Finished(j, at), JobRequests(p, j.org, j.user);
      && f.status == Completed && f.completedAt == Some(at) && f.processed == |p.records|
      && f.errors == |RefusedRows(rs)| && f.success == |p.records| - f.errors
      && f.summary.Report? && ErrorsShow(rs, f.summary.errors)
      && f.org == j.org && f.user == j.user && f.total == j.total && f.createdAt == j.createdAt
  {
    var rs := JobRequests(p, j.org, j.user);
    hide JobRequests, ErrorsShow, RefusedRows, RowErrors, Accepted;
    JobSizes(p, j.org, j.user);
    RowErrorsAre(rs);
    assert |RowErrors(rs)| == |RefusedRows(rs)| by { ErrorsSize(rs, RowErrors(rs)); }
    EveryRowCounted(rs);
    assert rs[..|rs|] == rs;
  }

  lemma JobSizes(p: Payload, org: int, user: int)
    ensures |JobRequests(p, org, user)| == |p.records| && AllAdds(JobRequests(p, org, user))
  {
  }

  lemma ErrorsSize(rs: seq<Request>, errors: seq<RowError>)
    requires AllAdds(rs) && ErrorsShow(rs, errors)
    ensures |errors| == |RefusedRows(rs)|
  {
  }

  // -------------------------------------------------------------- accounting

  /** What every stored row satisfies. */
  predicate Accounted(j: Job) {
    && j.success + j.errors == j.processed
    && (j.status == Completed ==> j.processed == j.total)
    && (j.status == Failed || j.status == JobPending ==> j.processed == j.success == j.errors == 0)
    && (j.status == Failed ==> j.summary == Message)
    && (j.status == JobPending ==> !j.summary.Report?)
    && (j.summary.Encoded? ==> |j.summary.payload.records| == j.total)
  }

  /** How a row may change between two stored states. */
  predicate Advances(j: Job, j': Job) {
    && j.processed <= j'.processed && j.success <= j'.success && j.errors <= j'.errors
    && j'.total == j.total && j'.org == j.org && j'.user == j.user && j'.createdAt == j.createdAt
    && (j.status == Completed ==> j' == j)
  }

  ghost predicate TableAccounted(t: JobTable) {
    forall id :: id in t ==> Accounted(t[id])
  }

  ghost predicate TableAdvances(t: JobTable, t': JobTable) {
    forall id :: id in t ==> id in t' && Advances(t[id], t'[id])
  }

  /** Every state of the history, and every pair of them, crashes included: a crash only ends the history early. */
  ghost predicate GoodHistory(h: seq<JobTable>) {
    && (forall i | 0 <= i < |h| :: TableAccounted(h[i]))
    && (forall i, j | 0 <= i <= j < |h| :: TableAdvances(h[i], h[j]))
  }

  lemma HistoryGrows(h: seq<JobTable>, t: JobTable)
    requires GoodHistory(h) && h != [] && TableAccounted(t) && TableAdvances(h[|h| - 1], t)
    ensures GoodHistory(h + [t])
  {
    var h' := h + [t];
    forall i, j | 0 <= i <= j < |h'| ensures TableAdvances(h'[i], h'[j]) {
      if j == |h| && i < |h| {
        assert TableAdvances(h[i], h[|h| - 1]);
      }
    }
  }

  lemma AdvancesAt(t: JobTable, id: int, j: Job)
    requires TableAccounted(t) && Accounted(j) && (id in t ==> Advances(t[id], j))
    ensures TableAccounted(t[id := j]) && TableAdvances(t, t[id := j])
  {
  }

  // ------------------------------------------------------------- the drain

  predicate IsPending(t: JobTable, id: int) { id in t && t[id].status == JobPending }

  /** `WHERE status = 'pending' ORDER BY created_at LIMIT 1`: any of the oldest. */
  predicate IsOldestPending(t: JobTable, id: int) {
    IsPending(t, id) && forall other | other in t && IsPending(t, other) :: t[id].createdAt <= t[other].createdAt
  }

  function PendingIds(t: JobTable): set<int> {
    set id | id in t && IsPending(t, id)
  }

  function EarlierPending(t: JobTable, id: int): set<int>
    requires id in t
  {
    set other | other in t && IsPending(t, other) && t[other].createdAt < t[id].createdAt
  }

  /** From any pending job one reaches an oldest one. */
  lemma {:induction false} OldestPendingExists(t: JobTable, id: int)
    requires IsPending(t, id)
    ensures exists oldest :: oldest in t && IsOldestPending(t, oldest)
    decreases EarlierPending(t, id)
  {
    if !IsOldestPending(t, id) {
      var other :| other in t && IsPending(t, other) && t[other].createdAt < t[id].createdAt;
      assert other in EarlierPending(t, id) && other !in EarlierPending(t, other);
      OldestPendingExists(t, other);
    }
  }

  /** Consecutive ticks that each find a pending job, `picks` the jobs they took. */
  ghost predicate Ticks(ts: seq<JobTable>, picks: seq<int>, at: seq<int>) {
    && |ts| == |picks| + 1 && |at| == |picks|
    && forall n | 0 <= n < |picks| ::
         IsOldestPending(ts[n], picks[n]) && ts[n + 1] == ts[n][picks[n] := Finished(ts[n][picks[n]], at[n])]
  }

  /** Ticks take the pending jobs oldest first, each once, and k of them empty a queue of k. */
  lemma {:induction false} DrainsInOrder(ts: seq<JobTable>, picks: seq<int>, at: seq<int>, n: nat)
    requires Ticks(ts, picks, at) && n <= |picks|
    ensures |PendingIds(ts[n])| == |PendingIds(ts[0])| - n && PendingIds(ts[n]) <= PendingIds(ts[0])
    ensures forall id :: id in PendingIds(ts[n]) ==> id in ts[0] && ts[n][id] == ts[0][id]
    ensures forall m | 0 <= m < n :: picks[m] in PendingIds(ts[0]) && picks[m] !in PendingIds(ts[n])
    ensures forall m, id | 0 <= m < n && id in PendingIds(ts[n]) :: ts[0][picks[m]].createdAt <= ts[0][id].createdAt
  {
    if n != 0 {
      var t, id := ts[n - 1], picks[n - 1];
      DrainsInOrder(ts, picks, at, n - 1);
      assert id in PendingIds(t);
      assert PendingIds(ts[n]) == PendingIds(t) - {id};
      assert |PendingIds(t) - {id}| == |PendingIds(t)| - 1;
    }
  }

  // ------------------------------------------------------------ the retries

  predicate Retriable(j: Job, now: int) {
    j.status == Failed && j.errors < MAX_RETRIES && j.completedAt.Some? && j.completedAt.value < now - RETRY_AFTER
  }

  function Retried(j: Job, now: int): Job {
    if Retriable(j, now) then j.(status := JobPending) else j
  }

  /** The retry tick's condition spelled out, on any row. */
  lemma {:induction false} RetriableIff(j: Job, now: int)
    ensures Retried(j, now) ==
            if j.status == Failed && j.errors < 3 && j.completedAt.Some? && j.completedAt.value < now - 60
            then j.(status := JobPending) else j
  {
  }

  /** `cycles` rounds, each a retry tick and then a job tick that takes this job if it is pending. */
  function RetryCycles(j: Job, cycles: seq<(int, int)>): Job
    decreases |cycles|
  {
    if cycles == [] then j
    else
      var queued := Retried(j, cycles[0].0);
      RetryCycles(if queued.status == JobPending then Finished(queued, cycles[0].1) else queued, cycles[1..])
  }

  /** When the attempt before round `i` completed. */
  function CompletedBefore(j: Job, cycles: seq<(int, int)>, i: nat): int
    requires j.completedAt.Some? && i <= |cycles|
  {
    if i == 0 then j.completedAt.value else cycles[i - 1].1
  }

  /** A retry tick came more than a minute after each attempt. */
  predicate RetriedInTime(j: Job, cycles: seq<(int, int)>)
    requires j.completedAt.Some?
  {
    forall i | 0 <= i < |cycles| :: CompletedBefore(j, cycles, i) < cycles[i].0 - RETRY_AFTER
  }

  lemma {:induction false} RetriesChangeNothing(j: Job, cycles: seq<(int, int)>)
    requires j.status == Failed && Accounted(j) && j.completedAt.Some? && RetriedInTime(j, cycles)
    ensures RetryCycles(j, cycles) == j.(completedAt := Some(CompletedBefore(j, cycles, |cycles|)))
    decreases |cycles|
  {
    if cycles != [] {
      var j' := j.(completedAt := Some(cycles[0].1));
      assert CompletedBefore(j, cycles, 0) < cycles[0].0 - RETRY_AFTER;
      forall i | 0 <= i < |cycles[1..]|
        ensures CompletedBefore(j', cycles[1..], i) < cycles[1..][i].0 - RETRY_AFTER
      {
        assert CompletedBefore(j, cycles, i + 1) < cycles[i + 1].0 - RETRY_AFTER;
      }
      RetriesChangeNothing(j', cycles[1..]);
    }
  }

  /** The retry limit never binds and a failed job never recovers: after any number of rounds it has been re-queued in
      each of them and stands exactly as failed as before, counters untouched. */
  lemma RetriesWithoutEnd(j: Job, cycles: seq<(int, int)>)
    requires j.status == Failed && Accounted(j) && j.completedAt.Some? && RetriedInTime(j, cycles)
    ensures RetryCycles(j, cycles) == j.(completedAt := Some(CompletedBefore(j, cycles, |cycles|)))
    ensures forall i | 0 <= i < |cycles| :: Retried(RetryCycles(j, cycles[..i]), cycles[i].0).status == JobPending
  {
    hide RetryCycles, Finished;
    RetriesChangeNothing(j, cycles);
    forall i | 0 <= i < |cycles| ensures Retried(RetryCycles(j, cycles[..i]), cycles[i].0).status == JobPending {
      forall m | 0 <= m < i ensures CompletedBefore(j, cycles[..i], m) < cycles[..i][m].0 - RETRY_AFTER {
        assert CompletedBefore(j, cycles, m) < cycles[m].0 - RETRY_AFTER;
      }
      RetriesChangeNothing(j, cycles[..i]);
      assert CompletedBefore(j, cycles[..i], i) == CompletedBefore(j, cycles, i);
    }
  }

  /** In how many of the rounds the retry tick queues the job again. */
  function Requeues(j: Job, cycles: seq<(int, int)>): nat
    decreases |cycles|
  {
    if cycles == [] then 0
    else
      var queued := Retried(j, cycles[0].0);
      (if queued != j then 1 else 0)
      + Requeues(if queued.status == JobPending then Finished(queued, cycles[0].1) else queued, cycles[1..])
  }

  lemma {:induction false} CompletedIsNeverRequeued(j: Job, cycles: seq<(int, int)>)
    requires j.status == Completed
    ensures Requeues(j, cycles) == 0
    decreases |cycles|
  {
    if cycles != [] { CompletedIsNeverRequeued(j, cycles[1..]); }
  }

  lemma {:induction false} FailedIsAlwaysRequeued(j: Job, cycles: seq<(int, int)>)
    requires j.status == Failed && Accounted(j) && j.completedAt.Some? && RetriedInTime(j, cycles)
    ensures Requeues(j, cycles) == |cycles|
    decreases |cycles|
  {
    if cycles != [] {
      var j' := j.(completedAt := Some(cycles[0].1));
      assert CompletedBefore(j, cycles, 0) < cycles[0].0 - RETRY_AFTER;
      forall i | 0 <= i < |cycles[1..]|
        ensures CompletedBefore(j', cycles[1..], i) < cycles[1..][i].0 - RETRY_AFTER
      {
        assert CompletedBefore(j, cycles, i + 1) < cycles[i + 1].0 - RETRY_AFTER;
      }
      FailedIsAlwaysRequeued(j', cycles[1..]);
    }
  }

  /** Four rounds, 61 seconds apart. */
  function FourRounds(at: int): seq<(int, int)> {
    [(at + 61, at + 61), (at + 122, at + 122), (at + 183, at + 183), (at + 244, at + 244)]
  }

  lemma FourRequeues(j: Job, at: int)
    requires j.status == JobPending && Accounted(j) && Decode(j.summary).None?
    ensures Requeues(Finished(j, at), FourRounds(at)) == 4
  {
    FailedIsAlwaysRequeued(Finished(j, at), FourRounds(at));
  }

  /** The promised limit holds of a pending job, over every sequence of rounds after its first attempt, exactly when its
      payload decodes: then the attempt completes it, otherwise the limit never binds. */
  lemma RetryLimitIff(j: Job)
    requires j.status == JobPending && Accounted(j)
    ensures (forall at: int, cycles :: Requeues(Finished(j, at), cycles) <= 3) <==> Decode(j.summary).Some?
  {
    if Decode(j.summary).Some? {
      forall at: int, cycles ensures Requeues(Finished(j, at), cycles) <= 3 {
        CompletedIsNeverRequeued(Finished(j, at), cycles);
      }
    } else {
      FourRequeues(j, 0);
    }
  }

  /** A row whose payload column is NULL, as no code of this model enqueues one. */
  lemma NoPayloadInstance(org: int, user: int)
    ensures
      var j := Job(org, user, JobPending, 1, 0, 0, 0, Missing, 0, None);
      Accounted(j) && Finished(j, 0).status == Failed && Requeues(Finished(j, 0), FourRounds(0)) > 3
  {
    FourRequeues(Job(org, user, JobPending, 1, 0, 0, 0, Missing, 0, None), 0);
  }

  // --------------------------------------------- histories of enqueued jobs

  /** What happens to the job table under one worker at a time. A crash leaves the picked job at the last progress it
      stored. */
  datatype JobEvent =
    | Enqueued(id: int, org: int, user: int, payload: Payload, at: int)
    | Ticked(id: int, at: int)
    | Crashed(id: int, done: nat)
    | RetryTick(at: int)

  function NewJob(org: int, user: int, p: Payload, at: int): Job {
    Job(org, user, JobPending, |p.records|, 0, 0, 0, Encoded(p), at, None)
  }

  /** What a crash leaves: `done` is 0 or a checkpoint. */
  function CrashedJob(j: Job, done: nat): Job {
    match Decode(j.summary)
    case None => j.(status := Processing)
    case Some(p) =>
      var rs := JobRequests(p, j.org, j.user);
      if done in Checkpoints(|rs|, |rs|) && done <= |rs| then Progressed(j, rs, done) else j.(status := Processing)
  }

  ghost predicate JobNext(t: JobTable, e: JobEvent, t': JobTable) {
    match e
    case Enqueued(id, org, user, p, at) => id !in t && t' == t[id := NewJob(org, user, p, at)]
    case Ticked(id, at) => IsOldestPending(t, id) && id in t && t' == t[id := Finished(t[id], at)]
    case Crashed(id, done) => IsOldestPending(t, id) && id in t && t' == t[id := CrashedJob(t[id], done)]
    case RetryTick(at) => t' == map id | id in t :: Retried(t[id], at)
  }

  ghost predicate JobRun(ts: seq<JobTable>, es: seq<JobEvent>) {
    |ts| == |es| + 1 && forall i | 0 <= i < |es| :: JobNext(ts[i], es[i], ts[i + 1])
  }

  /** No job has failed, and every pending one still has its payload. */
  ghost predicate Healthy(t: JobTable) {
    forall id :: id in t ==> t[id].status != Failed && (t[id].status == JobPending ==> t[id].summary.Encoded?)
  }

  lemma HealthyNext(t: JobTable, e: JobEvent, t': JobTable)
    requires JobNext(t, e, t') && Healthy(t)
    ensures Healthy(t') && (e.RetryTick? ==> t' == t)
  {
    hide JobRequests, Checkpoints, Accepted, RowErrors;
    if e.RetryTick? {
      assert forall id :: id in t ==> t'[id] == t[id];
      assert t'.Keys == t.Keys;
    }
  }

  lemma TickedIs(t: JobTable, id: int, at: int)
    requires id in t && IsOldestPending(t, id)
    ensures JobNext(t, Ticked(id, at), t[id := Finished(t[id], at)])
  {
  }

  /** Over every history of jobs enqueued by EnqueueBulkAdd, crashes included, no job ever fails, so the retry tick
      never changes anything. */
  lemma {:induction false} EnqueuedNeverFails(ts: seq<JobTable>, es: seq<JobEvent>, n: nat)
    requires JobRun(ts, es) && ts[0] == map[] && n < |ts|
    ensures Healthy(ts[n])
    ensures n < |es| && es[n].RetryTick? ==> ts[n + 1] == ts[n]
  {
    hide JobNext, Healthy;
    if n == 0 {
      NoJobsAreHealthy();
    } else {
      EnqueuedNeverFails(ts, es, n - 1);
      HealthyNext(ts[n - 1], es[n - 1], ts[n]);
    }
    if n < |es| { HealthyNext(ts[n], es[n], ts[n + 1]); }
  }

  lemma NoJobsAreHealthy()
    ensures Healthy(map[])
  {
  }

  lemma ProcessingNext(t: JobTable, e: JobEvent, t': JobTable, id: int)
    requires JobNext(t, e, t') && id in t && t[id].status == Processing
    ensures id in t' && t'[id] == t[id]
  {
    hide Finished, CrashedJob;
  }

  /** A crashed job is stuck: no later tick, retry or other event ever touches its row, so it is re-run only after
      someone resets it by hand. */
  lemma {:induction false} StuckProcessing(ts: seq<JobTable>, es: seq<JobEvent>, a: nat, b: nat, id: int)
    requires JobRun(ts, es) && a <= b < |ts| && id in ts[a] && ts[a][id].status == Processing
    ensures id in ts[b] && ts[b][id] == ts[a][id]
    decreases b
  {
    hide JobNext;
    if a < b {
      StuckProcessing(ts, es, a, b - 1, id);
      ProcessingNext(ts[b - 1], es[b - 1], ts[b], id);
    }
  }

  /** And every crash does that to the job it hits. */
  lemma CrashLeavesProcessing(t: JobTable, id: int, done: nat, t': JobTable)
    requires JobNext(t, Crashed(id, done), t')
    ensures id in t' && t'[id].status == Processing
  {
    hide JobRequests, Checkpoints, Accepted, RowErrors;
  }

  // ---------------------------------------------------------------- the code

  /** The times at which a job's records are added. */
  function Stamp(rs: seq<Request>, clock: nat -> int): (ts: seq<Timed>)
    ensures |ts| == |rs| && forall i | 0 <= i < |ts| :: ts[i] == Timed(rs[i], clock(i))
  {
    seq(|rs|, i requires 0 <= i < |rs| => Timed(rs[i], clock(i)))
  }

  lemma RunOneMore(db: Db, rs: seq<Request>, clock: nat -> int, i: nat)
    requires i < |rs|
    ensures Run(db, Stamp(rs, clock)[..i + 1]) == Apply(Run(db, Stamp(rs, clock)[..i]), rs[i], clock(i)).db
  {
    var ts := Stamp(rs, clock);
    assert ts[..i + 1] == ts[..i] + [ts[i]];
    RunAppend(db, ts[..i], [ts[i]]);
    assert [ts[i]][1..] == [];
  }

  lemma RequestsFit(p: Payload, org: int, user: int)
    ensures |JobRequests(p, org, user)| == |p.records| && AllAdds(JobRequests(p, org, user))
  {
  }

  lemma RequestAt(p: Payload, org: int, user: int, i: nat)
    requires i < |p.records|
    ensures |JobRequests(p, org, user)| == |p.records|
    ensures JobRequests(p, org, user)[i] ==
            AddNumber(p.records[i].phone, p.numberType, p.channel, p.records[i].reason, org, user)
  {
  }

  lemma CountsStep(rs: seq<Request>, i: nat)
    requires AllAdds(rs) && i < |rs|
    ensures Accepted(rs[..i + 1]) == Accepted(rs[..i]) + if AddError(rs[i]).None? then 1 else 0
    ensures RowErrors(rs[..i + 1]) ==
            RowErrors(rs[..i])
            + if AddError(rs[i]).Some? then [RowError(i + 1, rs[i].phone, AddError(rs[i]).value)] else []
  {
    assert rs[..i + 1][..i] == rs[..i];
  }

  lemma ApplyAnswers(db: Db, r: Request, now: int)
    requires r.AddNumber?
    ensures Apply(db, r, now).answer.Success? <==> AddError(r).None?
    ensures AddError(r).Some? ==> Apply(db, r, now).answer == Failure(AddError(r).value)
  {
  }

  lemma ProgressAdvances(j: Job, rs: seq<Request>, a: nat, b: nat)
    requires AllAdds(rs) && a <= b <= |rs| && Accounted(j) && j.status == JobPending
    ensures Accounted(Progressed(j, rs, a)) && Advances(j, Progressed(j, rs, a))
    ensures Advances(Progressed(j, rs, a), Progressed(j, rs, b))
  {
    EveryRowCounted(rs[..a]);
    CountsGrow(rs, a, b);
  }

  lemma {:induction false} FinishAdvances(j: Job, rs: seq<Request>, a: nat, at: int)
    requires Accounted(j) && j.status == JobPending && Decode(j.summary).Some?
    requires rs == JobRequests(Decode(j.summary).value, j.org, j.user) && a <= |rs|
    ensures Accounted(Finished(j, at)) && Advances(Progressed(j, rs, a), Finished(j, at))
  {
    assert rs[..|rs|] == rs;
    EveryRowCounted(rs);
    CountsGrow(rs, a, |rs|);
  }

  /** The counters after `i` records. */
  ghost predicate Tallied(rs: seq<Request>, i: nat, successCount: nat, errorCount: nat, errors: seq<RowError>) {
    && i <= |rs| && AllAdds(rs)
    && successCount == Accepted(rs[..i]) && errors == RowErrors(rs[..i]) && errorCount == |errors|
  }

  lemma {:induction false} TallyStep(rs: seq<Request>, i: nat, successCount: nat, errorCount: nat,
                                     errors: seq<RowError>, answer: Result<nat>, db: Db, now: int)
    requires Tallied(rs, i, successCount, errorCount, errors) && i < |rs| && answer == Apply(db, rs[i], now).answer
    ensures
      if answer.Failure? then
        Tallied(rs, i + 1, successCount, errorCount + 1, errors + [RowError(i + 1, rs[i].phone, answer.error)])
      else Tallied(rs, i + 1, successCount + 1, errorCount, errors)
  {
    CountsStep(rs, i);
    ApplyAnswers(db, rs[i], now);
  }

  /** The stored row while the records run: the job's row at the last checkpoint `n`. */
  ghost predicate StoredAt(j: Job, rs: seq<Request>, n: nat, stored: Job) {
    && j.status == JobPending && Accounted(j) && Decode(j.summary).Some?
    && rs == JobRequests(Decode(j.summary).value, j.org, j.user)
    && n <= |rs| && stored == Progressed(j, rs, n)
  }

  /** The update at a checkpoint is accounted for and advances the row. */
  lemma CheckpointRow(j: Job, rs: seq<Request>, n: nat, stored: Job, i: nat, successCount: nat, errorCount: nat,
                      errors: seq<RowError>)
    requires StoredAt(j, rs, n, stored) && n <= i && Tallied(rs, i, successCount, errorCount, errors)
    ensures
      var row := stored.(processed := i, success := successCount, errors := errorCount);
      row == Progressed(j, rs, i) && StoredAt(j, rs, i, row) && Accounted(row) && Advances(stored, row)
  {
    ProgressAdvances(j, rs, n, i);
    ProgressAdvances(j, rs, i, i);
  }

  lemma FinalRow(j: Job, rs: seq<Request>, n: nat, stored: Job, successCount: nat, errorCount: nat,
                 errors: seq<RowError>, at: int)
    requires StoredAt(j, rs, n, stored) && Tallied(rs, |rs|, successCount, errorCount, errors)
    ensures
      var row := stored.(status := Completed, processed := |rs|, success := successCount, errors := errorCount,
                         summary := Report(errors), completedAt := Some(at));
      row == Finished(j, at) && Accounted(row) && Advances(stored, row)
  {
    assert rs[..|rs|] == rs;
    FinishAdvances(j, rs, n, at);
  }

  lemma RecordsStart(j: Job, row: Job, rs: seq<Request>, db: Db, ts: seq<Timed>)
    requires j.status == JobPending && Accounted(j) && Decode(j.summary).Some?
    requires rs == JobRequests(Decode(j.summary).value, j.org, j.user) && row == j.(status := Processing)
    ensures StoredAt(j, rs, 0, row) && Tallied(rs, 0, 0, 0, []) && Run(db, ts[..0]) == db
  {
  }

  /** The history while the records run: one table for each checkpoint passed. */
  ghost predicate SnapshotsSoFar(h: seq<JobTable>, h0: seq<JobTable>, t: JobTable, id: int, j: Job, rs: seq<Request>,
                                 i: nat) {
    && i <= |rs| && AllAdds(rs)
    && (forall k | 0 <= k < |Checkpoints(i, |rs|)| :: Checkpoints(i, |rs|)[k] <= |rs|)
    && h == h0 + Snapshots(t, id, j, rs, Checkpoints(i, |rs|))
  }

  lemma SnapshotStart(h: seq<JobTable>, t: JobTable, id: int, j: Job, rs: seq<Request>)
    requires AllAdds(rs)
    ensures SnapshotsSoFar(h, h, t, id, j, rs, 0)
  {
  }

  lemma CheckpointsStep(i: nat, total: nat)
    ensures Checkpoints(i + 1, total) ==
            Checkpoints(i, total) + if (i + 1) % 100 == 0 || i + 1 == total then [i + 1] else []
  {
  }

  lemma SnapshotStep(h: seq<JobTable>, h0: seq<JobTable>, t: JobTable, id: int, j: Job, rs: seq<Request>, i: nat)
    requires SnapshotsSoFar(h, h0, t, id, j, rs, i) && i < |rs|
    ensures if (i + 1) % 100 == 0 || i == |rs| - 1
            then SnapshotsSoFar(h + [t[id := Progressed(j, rs, i + 1)]], h0, t, id, j, rs, i + 1)
            else SnapshotsSoFar(h, h0, t, id, j, rs, i + 1)
  {
    hide Progressed, Checkpoints;
    var before, after := Checkpoints(i, |rs|), Checkpoints(i + 1, |rs|);
    CheckpointsStep(i, |rs|);
    CheckpointsBounded(i + 1, |rs|);
    if (i + 1) % 100 == 0 || i == |rs| - 1 {
      assert after == before + [i + 1];
      assert Snapshots(t, id, j, rs, after) == Snapshots(t, id, j, rs, before) + [t[id := Progressed(j, rs, i + 1)]];
    }
  }

  lemma SnapshotEnd(h: seq<JobTable>, h0: seq<JobTable>, t: JobTable, id: int, j: Job, rs: seq<Request>)
    requires SnapshotsSoFar(h, h0, t, id, j, rs, |rs|)
    ensures AllAdds(rs) && forall i | 0 <= i < |Checkpoints(|rs|, |rs|)| :: Checkpoints(|rs|, |rs|)[i] <= |rs|
    ensures h == h0 + Snapshots(t, id, j, rs, Checkpoints(|rs|, |rs|))
  {
  }

  class Worker {
    var jobs: JobTable
    const dno: DNOService
    /** Every state the job table has been stored in, the present one last. */
    ghost var history: seq<JobTable>

    ghost predicate Valid()
      reads this
    {
      history != [] && history[|history| - 1] == jobs && GoodHistory(history)
    }

    constructor (dno: DNOService)
      ensures Valid() && jobs == map[] && this.dno == dno
    {
      this.dno := dno;
      jobs := map[];
      history := [map[]];
    }

    lemma PickedRow(id: int, at: int)
      requires Valid() && id in jobs && IsOldestPending(jobs, id)
      ensures
        var j := jobs[id];
        var started := j.(status := Processing);
        && Accounted(j) && j.status == JobPending && IsPending(jobs, id) && Accounted(started) && Advances(j, started)
        && (Decode(j.summary).None? ==>
              && Finished(j, at) == j.(status := Failed, summary := Message, completedAt := Some(at))
              && Accounted(Finished(j, at)) && Advances(started, Finished(j, at)))
    {
      assert TableAccounted(history[|history| - 1]);
    }

    /** One UPDATE or INSERT of the job row `id`. */
    method Store(id: int, j: Job)
      requires Valid() && Accounted(j) && (id in jobs ==> Advances(jobs[id], j))
      modifies this
      ensures Valid() && jobs == old(jobs)[id := j] && history == old(history) + [jobs]
    {
      AdvancesAt(jobs, id, j);
      HistoryGrows(history, jobs[id := j]);
      jobs := jobs[id := j];
      history := history + [jobs];
    }

    method EnqueueBulkAdd(id: int, org: int, user: int, records: seq<Record>, channel: string, numberType: string,
                          now: int)
      requires Valid() && id !in jobs
      modifies this
      ensures Valid() && jobs == old(jobs)[id := Job(org, user, JobPending, |records|, 0, 0, 0,
                                                     Encoded(Payload(records, channel, numberType)), now, None)]
      ensures JobNext(old(jobs), Enqueued(id, org, user, Payload(records, channel, numberType), now), jobs)
    {
      var payload := Encoded(Payload(records, channel, numberType));
      Store(id, Job(org, user, JobPending, |records|, 0, 0, 0, payload, now, None));
    }

    /** SELECT ... WHERE status = 'pending' ORDER BY created_at LIMIT 1 */
    method SelectOldest() returns (picked: Option<int>)
      ensures picked.None? <==> !exists id :: IsPending(jobs, id)
      ensures picked.Some? ==> picked.value in jobs && IsOldestPending(jobs, picked.value)
    {
      if !exists id :: id in jobs && IsPending(jobs, id) { return None; }
      ghost var some :| some in jobs && IsPending(jobs, some);
      OldestPendingExists(jobs, some);
      var id :| id in jobs && IsOldestPending(jobs, id);
      return Some(id);
    }

    /** One job tick. */
    method ProcessPending(clock: nat -> int, doneAt: int) returns (picked: Option<int>)
      requires Valid() && dno.Agrees()
      modifies this, dno.db, if dno.cache == null then {} else {dno.cache}
      ensures Valid() && dno.Agrees() && old(history) <= history
      ensures picked.None? <==> !exists id :: IsPending(old(jobs), id)
      ensures picked.None? ==> jobs == old(jobs) && dno.db.State() == old(dno.db.State())
      ensures picked.Some? ==> JobNext(old(jobs), Ticked(picked.value, doneAt), jobs)
      ensures picked.Some? ==>
                && IsOldestPending(old(jobs), picked.value)
                && jobs == old(jobs)[picked.value := Finished(old(jobs)[picked.value], doneAt)]
      ensures picked.Some? ==>
                var p := Decode(old(jobs)[picked.value].summary);
                dno.db.State() ==
                if p.None? then old(dno.db.State())
                else Run(old(dno.db.State()),
                         Stamp(JobRequests(p.value, old(jobs)[picked.value].org, old(jobs)[picked.value].user), clock))
    {
      hide *;
      picked := SelectOldest();
      if picked.None? { return; }
      var id := picked.value;
      var job := jobs[id];
      PickedRow(id, doneAt);
      TickedIs(jobs, id, doneAt);

      Store(id, job.(status := Processing));
      if Decode(job.summary).None? {
        Store(id, job.(status := Failed, summary := Message, completedAt := Some(doneAt)));
        assert jobs == old(jobs)[id := Finished(job, doneAt)];
        return;
      }
      ProcessRecords(id, job, clock, doneAt);
      assert jobs == old(jobs)[id := Finished(job, doneAt)];
    }

    /** The record loop of a job whose payload decodes. */
    method ProcessRecords(id: int, job: Job, clock: nat -> int, doneAt: int)
      requires Valid() && dno.Agrees() && Accounted(job) && job.status == JobPending && Decode(job.summary).Some?
      requires id in jobs && jobs[id] == job.(status := Processing)
      modifies this, dno.db, if dno.cache == null then {} else {dno.cache}
      ensures Valid() && dno.Agrees() && jobs == old(jobs)[id := Finished(job, doneAt)]
      ensures
        var rs := JobRequests(Decode(job.summary).value, job.org, job.user);
        && dno.db.State() == Run(old(dno.db.State()), Stamp(rs, clock))
        && (forall i | 0 <= i < |Checkpoints(|rs|, |rs|)| :: Checkpoints(|rs|, |rs|)[i] <= |rs|)
        && history == old(history) + Snapshots(old(jobs), id, job, rs, Checkpoints(|rs|, |rs|)) + [jobs]
    {
      hide *;
      var payload := Decode(job.summary).value;
      RequestsFit(payload, job.org, job.user);
      var total := |payload.records|;
      var successCount, errorCount := 0, 0;
      var errors: seq<RowError> := [];
      ghost var rs, stored: nat := JobRequests(payload, job.org, job.user), 0;
      ghost var ts := Stamp(rs, clock);
      ghost var db0, jobs0, history0 := dno.db.State(), jobs, history;
      RecordsStart(job, jobs0[id], rs, db0, ts);
      SnapshotStart(history, jobs0, id, job, rs);
      for i := 0 to total
        invariant Valid() && dno.Agrees() && stored <= i && id in jobs
        invariant StoredAt(job, rs, stored, jobs[id]) && jobs == jobs0[id := jobs[id]]
        invariant dno.db.State() == Run(db0, ts[..i])
        invariant Tallied(rs, i, successCount, errorCount, errors)
        invariant SnapshotsSoFar(history, history0, jobs0, id, job, rs, i)
      {
        var rec := payload.records[i];
        RequestAt(payload, job.org, job.user, i);
        var req := AddNumber(rec.phone, payload.numberType, payload.channel, rec.reason, job.org, job.user);
        ghost var before := dno.db.State();
        var r := dno.AddNumber(req, clock(i));
        TallyStep(rs, i, successCount, errorCount, errors, r, before, clock(i));
        RunOneMore(db0, rs, clock, i);
        if r.Failure? {
          errorCount := errorCount + 1;
          errors := errors + [RowError(i + 1, rec.phone, r.error)];
        } else {
          successCount := successCount + 1;
        }
        SnapshotStep(history, history0, jobs0, id, job, rs, i);
        if (i + 1) % 100 == 0 || i == total - 1 {
          CheckpointRow(job, rs, stored, jobs[id], i + 1, successCount, errorCount, errors);
          Store(id, jobs[id].(processed := i + 1, success := successCount, errors := errorCount));
          stored := i + 1;
        }
      }
      assert ts[..|ts|] == ts;
      SnapshotEnd(history, history0, jobs0, id, job, rs);
      FinalRow(job, rs, stored, jobs[id], successCount, errorCount, errors, doneAt);
      Store(id, jobs[id].(status := Completed, processed := total, success := successCount, errors := errorCount,
                          summary := Report(errors), completedAt := Some(doneAt)));
    }

    /** One retry tick. */
    method RetryFailed(now: int)
      requires Valid()
      modifies this
      ensures Valid() && jobs == map id | id in old(jobs) :: Retried(old(jobs)[id], now)
      ensures JobNext(old(jobs), RetryTick(now), jobs)
      ensures jobs.Keys == old(jobs).Keys
      ensures forall id | id in jobs ::
                var j := old(jobs)[id];
                jobs[id] ==
                if j.status == Failed && j.errors < 3 && j.completedAt.Some? && j.completedAt.value < now - 60
                then j.(status := JobPending) else j
    {
      ghost var before := jobs;
      jobs := map id | id in jobs :: if Retriable(jobs[id], now) then jobs[id].(status := JobPending) else jobs[id];
      assert TableAccounted(before) by { assert TableAccounted(history[|history| - 1]); }
      HistoryGrows(history, jobs);
      history := history + [jobs];
    }
  }
}
