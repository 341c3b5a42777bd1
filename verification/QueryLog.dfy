/** The asynchronous query-log writer (internal/querylog/writer.go): Log appends under the mutex and may spawn a flush;
    a flush swaps the buffer under the mutex and writes the batch it took outside it. */
module QueryLog {
  datatype Entry = Entry(org: int, phone: string, result: string, channel: string)

  /** A batch a flush took: being written, committed with the entries whose INSERT succeeded, or lost whole. */
  datatype Fate = InFlight | Stored(kept: seq<Entry>) | Lost
  datatype Batch = Batch(entries: seq<Entry>, fate: Fate)

  /** `due` counts Log calls that have released the mutex and not yet executed `go w.flush()`; `spawned` counts the
      flush goroutines that have not yet swapped; `logged` is every entry ever given to Log, in mutex order. */
  datatype State = State(buf: seq<Entry>, logged: seq<Entry>, batches: seq<Batch>, due: nat, spawned: nat,
                         rows: seq<Entry>)

  const START := State([], [], [], 0, 0, [])

  /** The atomic sections. SpawnedSwap belongs to a flush that Log spawned, OtherSwap to the ticker's and Stop's. */
  datatype Action =
    | Append(e: Entry)
    | Spawn
    | SpawnedSwap
    | OtherSwap
    | Commit(batch: nat, ok: seq<bool>)
    | Lose(batch: nat)

  predicate Enabled(s: State, a: Action) {
    match a
    case Append(_) => true
    case Spawn => s.due > 0
    case SpawnedSwap => s.spawned > 0
    case OtherSwap => true
    case Commit(b, ok) => b < |s.batches| && s.batches[b].fate.InFlight? && |ok| == |s.batches[b].entries|
    case Lose(b) => b < |s.batches| && s.batches[b].fate.InFlight?
  }

  /** The CHECK constraints of `query_log`. */
  predicate Storable(e: Entry) {
    (e.result == "hit" || e.result == "miss") && (e.channel == "voice" || e.channel == "text")
  }

  /** The entries whose INSERT succeeded: the driver reported no failure and the table accepts them. */
  function Kept(entries: seq<Entry>, ok: seq<bool>): seq<Entry>
    requires |entries| == |ok|
  {
    if entries == [] then []
    else
      var n := |entries| - 1;
      Kept(entries[..n], ok[..n]) + if ok[n] && Storable(entries[n]) then [entries[n]] else []
  }

  /** The critical section of flush: nothing when the buffer is empty, otherwise the buffer becomes a batch. */
  function Swap(s: State): State {
    if s.buf == [] then s else s.(buf := [], batches := s.batches + [Batch(s.buf, InFlight)])
  }

  function Do(s: State, flushSize: int, a: Action): State
    requires Enabled(s, a)
  {
    match a
    case Append(e) =>
      s.(buf := s.buf + [e], logged := s.logged + [e], due := if |s.buf| + 1 >= flushSize then s.due + 1 else s.due)
    case Spawn => s.(due := s.due - 1, spawned := s.spawned + 1)
    case SpawnedSwap => Swap(s).(spawned := s.spawned - 1)
    case OtherSwap => Swap(s)
    case Commit(b, ok) =>
      var kept := Kept(s.batches[b].entries, ok);
      s.(batches := s.batches[b := s.batches[b].(fate := Stored(kept))], rows := s.rows + kept)
    case Lose(b) => s.(batches := s.batches[b := s.batches[b].(fate := Lost)])
  }

  /** `states` is an interleaving of the atomic sections, from the empty writer. */
  ghost predicate Interleaving(flushSize: int, states: seq<State>, actions: seq<Action>) {
    && |states| == |actions| + 1 && states[0] == START
    && forall i | 0 <= i < |actions| ::
         Enabled(states[i], actions[i]) && states[i + 1] == Do(states[i], flushSize, actions[i])
  }

  // ------------------------------------------------------------ conservation

  function Taken(batches: seq<Batch>): seq<Entry> {
    if batches == [] then [] else Taken(batches[..|batches| - 1]) + batches[|batches| - 1].entries
  }

  /** Batches in take order, then the buffer, are exactly what was logged. */
  predicate Conserved(s: State) {
    Taken(s.batches) + s.buf == s.logged
  }

  lemma {:induction false} TakenSameEntries(a: seq<Batch>, b: seq<Batch>)
    requires |a| == |b| && forall i | 0 <= i < |a| :: a[i].entries == b[i].entries
    ensures Taken(a) == Taken(b)
  {
    if a != [] { TakenSameEntries(a[..|a| - 1], b[..|b| - 1]); }
  }

  lemma DoConserves(s: State, flushSize: int, a: Action)
    requires Enabled(s, a) && Conserved(s)
    ensures Conserved(Do(s, flushSize, a))
  {
    var s' := Do(s, flushSize, a);
    match a
    case Append(e) =>
      assert Taken(s.batches) + (s.buf + [e]) == (Taken(s.batches) + s.buf) + [e];
    case Spawn =>
    case SpawnedSwap => SwapConserves(s);
    case OtherSwap => SwapConserves(s);
    case Commit(_, _) => TakenSameEntries(s.batches, s'.batches);
    case Lose(_) => TakenSameEntries(s.batches, s'.batches);
  }

  lemma SwapConserves(s: State)
    requires Conserved(s)
    ensures Conserved(Swap(s))
  {
    if s.buf != [] {
      assert Swap(s).batches[..|s.batches|] == s.batches;
      assert Taken(Swap(s).batches) == Taken(s.batches) + s.buf;
    }
  }

  /** Log conservation, over every interleaving. */
  lemma {:induction false} LogConservation(flushSize: int, states: seq<State>, actions: seq<Action>, n: nat)
    requires Interleaving(flushSize, states, actions) && n < |states|
    ensures Conserved(states[n])
  {
    if n != 0 {
      LogConservation(flushSize, states, actions, n - 1);
      DoConserves(states[n - 1], flushSize, actions[n - 1]);
    }
  }

  /** Where an entry can be. */
  datatype Place = InBuffer(at: nat) | InBatch(batch: nat, at: nat)

  predicate Exists(s: State, p: Place) {
    match p
    case InBuffer(at) => at < |s.buf|
    case InBatch(b, at) => b < |s.batches| && at < |s.batches[b].entries|
  }

  function EntryAt(s: State, p: Place): Entry
    requires Exists(s, p)
  {
    match p case InBuffer(at) => s.buf[at] case InBatch(b, at) => s.batches[b].entries[at]
  }

  /** Which logged entry a place holds. */
  function LoggedIndex(s: State, p: Place): nat
    requires Exists(s, p)
  {
    match p case InBuffer(at) => |Taken(s.batches)| + at case InBatch(b, at) => |Taken(s.batches[..b])| + at
  }

  lemma {:induction false} TakenMonotone(batches: seq<Batch>, a: nat, b: nat)
    requires a <= b <= |batches|
    ensures Taken(batches[..a]) <= Taken(batches[..b])
    ensures a < b ==> Taken(batches[..a]) + batches[a].entries <= Taken(batches[..b])
    decreases b
  {
    if a < b {
      assert batches[..b][..b - 1] == batches[..b - 1];
      TakenMonotone(batches, a, b - 1);
      assert Taken(batches[..b]) == Taken(batches[..b - 1]) + batches[b - 1].entries;
    }
  }

  /** A place holds the logged entry of its index, and no two places have the same index. */
  lemma PlaceHolds(s: State, p: Place)
    requires Conserved(s) && Exists(s, p)
    ensures LoggedIndex(s, p) < |s.logged| && s.logged[LoggedIndex(s, p)] == EntryAt(s, p)
  {
    if p.InBatch? {
      TakenMonotone(s.batches, p.batch, |s.batches|);
      assert s.batches[..|s.batches|] == s.batches;
      var upTo := Taken(s.batches[..p.batch]) + s.batches[p.batch].entries;
      assert upTo <= s.logged;
      assert s.logged[LoggedIndex(s, p)] == upTo[LoggedIndex(s, p)];
    }
  }

  lemma PlacesApart(s: State, p: Place, q: Place)
    requires Exists(s, p) && Exists(s, q) && LoggedIndex(s, p) == LoggedIndex(s, q)
    ensures p == q
  {
    assert s.batches[..|s.batches|] == s.batches;
    if p.InBatch? { TakenMonotone(s.batches, p.batch, |s.batches|); }
    if q.InBatch? { TakenMonotone(s.batches, q.batch, |s.batches|); }
    if p.InBatch? && q.InBatch? {
      if p.batch < q.batch { TakenMonotone(s.batches, p.batch, q.batch); }
      if q.batch < p.batch { TakenMonotone(s.batches, q.batch, p.batch); }
    }
  }

  lemma {:induction false} FindBatch(batches: seq<Batch>, i: nat) returns (b: nat, at: nat)
    requires i < |Taken(batches)|
    ensures b < |batches| && at < |batches[b].entries| && |Taken(batches[..b])| + at == i
  {
    var n := |batches| - 1;
    var init := batches[..n];
    if i < |Taken(init)| {
      b, at := FindBatch(init, i);
      assert init[..b] == batches[..b];
    } else {
      b, at := n, i - |Taken(init)|;
    }
  }

  /** So every logged entry is in exactly one place: the buffer, or one batch, in flight or finished. */
  lemma ExactlyOnePlace(s: State, i: nat) returns (p: Place)
    requires Conserved(s) && i < |s.logged|
    ensures Exists(s, p) && LoggedIndex(s, p) == i && EntryAt(s, p) == s.logged[i]
    ensures forall q :: Exists(s, q) && LoggedIndex(s, q) == i ==> q == p
  {
    if i < |Taken(s.batches)| {
      var b, at := FindBatch(s.batches, i);
      p := InBatch(b, at);
    } else {
      p := InBuffer(i - |Taken(s.batches)|);
    }
    PlaceHolds(s, p);
    forall q | Exists(s, q) && LoggedIndex(s, q) == i ensures q == p {
      PlacesApart(s, p, q);
    }
  }

  // ------------------------------------------------------- no double delivery

  function KeptOf(b: Batch): multiset<Entry> {
    if b.fate.Stored? then multiset(b.fate.kept) else multiset{}
  }

  function StoredIn(batches: seq<Batch>): multiset<Entry> {
    if batches == [] then multiset{}
    else StoredIn(batches[..|batches| - 1]) + KeptOf(batches[|batches| - 1])
  }

  predicate Delivered(s: State) {
    && multiset(s.rows) == StoredIn(s.batches)
    && forall b | 0 <= b < |s.batches| :: KeptOf(s.batches[b]) <= multiset(s.batches[b].entries)
  }

  lemma KeptUnfolds(entries: seq<Entry>, ok: seq<bool>)
    requires |entries| == |ok| && entries != []
    ensures
      var n := |entries| - 1;
      var before := Kept(entries[..n], ok[..n]);
      Kept(entries, ok) == if ok[n] && Storable(entries[n]) then before + [entries[n]] else before
  {
  }

  function Occurs(s: seq<Entry>, e: Entry): nat { multiset(s)[e] }

  lemma OccursStep(s: seq<Entry>, x: Entry, e: Entry)
    ensures Occurs(s + [x], e) == Occurs(s, e) + if x == e then 1 else 0
  {
  }

  lemma OccursLast(s: seq<Entry>, e: Entry)
    requires s != []
    ensures Occurs(s, e) == Occurs(s[..|s| - 1], e) + if s[|s| - 1] == e then 1 else 0
  {
    hide Occurs;
    assert s == s[..|s| - 1] + [s[|s| - 1]];
    OccursStep(s[..|s| - 1], s[|s| - 1], e);
  }

  /** No entry is stored more often than it is in the batch; when every INSERT passes, each entry the table takes is
      stored exactly as often. */
  lemma {:induction false} KeptOccurs(entries: seq<Entry>, ok: seq<bool>, e: Entry)
    requires |entries| == |ok|
    ensures Occurs(Kept(entries, ok), e) <= Occurs(entries, e)
    ensures !Storable(e) ==> Occurs(Kept(entries, ok), e) == 0
    ensures AllPass(ok) && Storable(e) ==> Occurs(Kept(entries, ok), e) == Occurs(entries, e)
  {
    if entries != [] {
      hide Kept, Occurs, Storable;
      var n := |entries| - 1;
      KeptOccurs(entries[..n], ok[..n], e);
      KeptUnfolds(entries, ok);
      OccursLast(entries, e);
      OccursStep(Kept(entries[..n], ok[..n]), entries[n], e);
    }
  }

  lemma KeptIsPart(entries: seq<Entry>, ok: seq<bool>)
    requires |entries| == |ok|
    ensures multiset(Kept(entries, ok)) <= multiset(entries)
  {
    hide Kept;
    forall e ensures multiset(Kept(entries, ok))[e] <= multiset(entries)[e] {
      KeptOccurs(entries, ok, e);
    }
  }

  predicate AllPass(ok: seq<bool>) {
    forall i | 0 <= i < |ok| :: ok[i]
  }

  lemma SumSwap(a: multiset<Entry>, b: multiset<Entry>, c: multiset<Entry>)
    ensures (a + b) + c == (a + c) + b
  {
  }

  lemma StoredInStep(batches: seq<Batch>)
    requires batches != []
    ensures StoredIn(batches) == StoredIn(batches[..|batches| - 1]) + KeptOf(batches[|batches| - 1])
  {
  }

  lemma NothingKept(b: Batch)
    requires b.fate.InFlight?
    ensures KeptOf(b) == multiset{}
  {
  }

  /** Replacing a batch in flight adds what its replacement kept. */
  lemma {:induction false} StoredUpdate(batches: seq<Batch>, b: nat, done: Batch)
    requires b < |batches| && batches[b].fate.InFlight?
    ensures StoredIn(batches[b := done]) == StoredIn(batches) + KeptOf(done)
  {
    hide StoredIn, KeptOf;
    var n := |batches| - 1;
    var init, after := batches[..n], batches[b := done];
    StoredInStep(batches);
    StoredInStep(after);
    if b < n {
      StoredUpdate(init, b, done);
      assert after[..n] == init[b := done];
      SumSwap(StoredIn(init), KeptOf(batches[n]), KeptOf(done));
    } else {
      assert after[..n] == init;
      NothingKept(batches[n]);
    }
  }

  lemma SwapDelivers(s: State)
    requires Delivered(s)
    ensures Delivered(Swap(s))
  {
    if s.buf != [] {
      assert Swap(s).batches[..|s.batches|] == s.batches;
      assert KeptOf(Batch(s.buf, InFlight)) == multiset{};
    }
  }

  lemma FinishDelivers(s: State, b: nat, done: Batch, rows: seq<Entry>)
    requires Delivered(s) && b < |s.batches| && s.batches[b].fate.InFlight?
    requires KeptOf(done) <= multiset(done.entries) && multiset(rows) == multiset(s.rows) + KeptOf(done)
    ensures Delivered(s.(batches := s.batches[b := done], rows := rows))
  {
    StoredUpdate(s.batches, b, done);
  }

  lemma {:induction false} DoDelivers(s: State, flushSize: int, a: Action)
    requires Enabled(s, a) && Delivered(s)
    ensures Delivered(Do(s, flushSize, a))
  {
    match a
    case Append(_) =>
    case Spawn =>
    case SpawnedSwap => SwapDelivers(s);
    case OtherSwap => SwapDelivers(s);
    case Commit(b, ok) =>
      var kept := Kept(s.batches[b].entries, ok);
      KeptIsPart(s.batches[b].entries, ok);
      FinishDelivers(s, b, s.batches[b].(fate := Stored(kept)), s.rows + kept);
    case Lose(b) =>
      assert multiset(s.rows) + multiset{} == multiset(s.rows);
      FinishDelivers(s, b, s.batches[b].(fate := Lost), s.rows);
  }

  lemma {:induction false} StoredWithinTaken(batches: seq<Batch>)
    requires forall b | 0 <= b < |batches| :: KeptOf(batches[b]) <= multiset(batches[b].entries)
    ensures StoredIn(batches) <= multiset(Taken(batches))
  {
    if batches != [] { StoredWithinTaken(batches[..|batches| - 1]); }
  }

  /** Over every interleaving the table holds no entry more often than it was logged. */
  lemma NoDoubleDelivery(flushSize: int, states: seq<State>, actions: seq<Action>, n: nat)
    requires Interleaving(flushSize, states, actions) && n < |states|
    ensures multiset(states[n].rows) <= multiset(states[n].logged)
  {
    RunDelivers(flushSize, states, actions, n);
    LogConservation(flushSize, states, actions, n);
    StoredWithinTaken(states[n].batches);
    assert multiset(states[n].logged) == multiset(Taken(states[n].batches)) + multiset(states[n].buf);
  }

  lemma {:induction false} RunDelivers(flushSize: int, states: seq<State>, actions: seq<Action>, n: nat)
    requires Interleaving(flushSize, states, actions) && n < |states|
    ensures Delivered(states[n])
  {
    if n != 0 {
      RunDelivers(flushSize, states, actions, n - 1);
      DoDelivers(states[n - 1], flushSize, actions[n - 1]);
    }
  }

  /** `stored` is the entries at exactly the positions the driver let through and the table takes, in order; repeated
      entries count once for each position. */
  ghost predicate StoredOf(entries: seq<Entry>, ok: seq<bool>, stored: seq<Entry>)
    requires |entries| == |ok|
  {
    exists at :: StoredAt(entries, ok, at, stored, |entries|)
  }

  /** `at` is where the first `n` entries are stored from. */
  ghost predicate StoredAt(entries: seq<Entry>, ok: seq<bool>, at: seq<nat>, stored: seq<Entry>, n: nat)
    requires |entries| == |ok| && n <= |entries|
  {
    && |at| == |stored| && (forall m | 0 <= m < |at| :: at[m] < n && stored[m] == entries[at[m]])
    && (forall m, l | 0 <= m < l < |at| :: at[m] < at[l])
    && forall i: nat | i < n :: i in at <==> ok[i] && Storable(entries[i])
  }

  lemma KeptStep(entries: seq<Entry>, ok: seq<bool>, n: nat)
    requires |entries| == |ok| && n < |entries|
    ensures Kept(entries[..n + 1], ok[..n + 1]) ==
            Kept(entries[..n], ok[..n]) + if ok[n] && Storable(entries[n]) then [entries[n]] else []
  {
    assert entries[..n + 1][..n] == entries[..n] && ok[..n + 1][..n] == ok[..n];
  }

  lemma StoredMore(entries: seq<Entry>, ok: seq<bool>, at: seq<nat>, stored: seq<Entry>, n: nat)
    requires |entries| == |ok| && n < |entries| && StoredAt(entries, ok, at, stored, n) && ok[n] && Storable(entries[n])
    ensures StoredAt(entries, ok, at + [n], stored + [entries[n]], n + 1)
  {
    hide Storable;
    var at' := at + [n];
    forall i: nat | i < n + 1 ensures i in at' <==> ok[i] && Storable(entries[i]) {
      assert i in at' <==> i in at || i == n;
    }
  }

  lemma StoredSame(entries: seq<Entry>, ok: seq<bool>, at: seq<nat>, stored: seq<Entry>, n: nat)
    requires |entries| == |ok| && n < |entries| && StoredAt(entries, ok, at, stored, n)
    requires !(ok[n] && Storable(entries[n]))
    ensures StoredAt(entries, ok, at, stored, n + 1)
  {
    hide Storable;
    assert n !in at;
  }

  lemma {:induction false} KeptAt(entries: seq<Entry>, ok: seq<bool>, n: nat) returns (at: seq<nat>)
    requires |entries| == |ok| && n <= |entries|
    ensures StoredAt(entries, ok, at, Kept(entries[..n], ok[..n]), n)
  {
    if n == 0 {
      at := [];
    } else {
      hide StoredAt, Kept, Storable;
      at := KeptAt(entries, ok, n - 1);
      var stored := Kept(entries[..n - 1], ok[..n - 1]);
      KeptStep(entries, ok, n - 1);
      if ok[n - 1] && Storable(entries[n - 1]) {
        StoredMore(entries, ok, at, stored, n - 1);
        at := at + [n - 1];
      } else {
        StoredSame(entries, ok, at, stored, n - 1);
        assert stored + [] == stored;
      }
    }
  }

  lemma KeptIsStored(entries: seq<Entry>, ok: seq<bool>)
    requires |entries| == |ok|
    ensures StoredOf(entries, ok, Kept(entries, ok))
  {
    hide Kept, Storable;
    var at := KeptAt(entries, ok, |entries|);
    assert entries[..|entries|] == entries && ok[..|ok|] == ok;
  }

  /** When every INSERT passes, each entry the table takes is stored as often as it is in the batch. */
  lemma {:induction false} KeptCounts(entries: seq<Entry>, ok: seq<bool>, e: Entry)
    requires |entries| == |ok| && AllPass(ok)
    ensures multiset(Kept(entries, ok))[e] == if Storable(e) then multiset(entries)[e] else 0
  {
    hide Kept, Storable;
    KeptOccurs(entries, ok, e);
  }

  /** How often an entry is in the batches that are no longer in flight. */
  function InFinished(batches: seq<Batch>, e: Entry): nat {
    if batches == [] then 0
    else
      var b := batches[|batches| - 1];
      InFinished(batches[..|batches| - 1], e) + if b.fate.InFlight? then 0 else multiset(b.entries)[e]
  }

  lemma {:induction false} FinishedUpdate(batches: seq<Batch>, b: nat, done: Batch, e: Entry)
    requires b < |batches| && batches[b].fate.InFlight? && !done.fate.InFlight?
    ensures InFinished(batches[b := done], e) == InFinished(batches, e) + multiset(done.entries)[e]
  {
    var n := |batches| - 1;
    if b < n {
      FinishedUpdate(batches[..n], b, done, e);
      assert batches[b := done][..n] == batches[..n][b := done];
    } else {
      assert batches[b := done][..n] == batches[..n];
    }
  }

  /** Every commit so far let every INSERT through, and no batch was lost. */
  ghost predicate NoFailure(actions: seq<Action>, n: nat)
    requires n <= |actions|
  {
    forall i | 0 <= i < n :: !actions[i].Lose? && (actions[i].Commit? ==> AllPass(actions[i].ok))
  }

  lemma DoDeliversAll(s: State, flushSize: int, a: Action, e: Entry)
    requires Enabled(s, a) && !a.Lose? && (a.Commit? ==> AllPass(a.ok)) && Storable(e)
    requires multiset(s.rows)[e] == InFinished(s.batches, e)
    ensures multiset(Do(s, flushSize, a).rows)[e] == InFinished(Do(s, flushSize, a).batches, e)
  {
    hide Kept, AllPass, Storable;
    match a
    case Append(_) =>
    case Spawn =>
    case SpawnedSwap => SwapFinishes(s, e);
    case OtherSwap => SwapFinishes(s, e);
    case Commit(b, ok) =>
      var entries := s.batches[b].entries;
      KeptCounts(entries, ok, e);
      FinishedUpdate(s.batches, b, s.batches[b].(fate := Stored(Kept(entries, ok))), e);
    case Lose(_) =>
  }

  lemma SwapFinishes(s: State, e: Entry)
    ensures Swap(s).rows == s.rows && InFinished(Swap(s).batches, e) == InFinished(s.batches, e)
  {
    assert s.buf != [] ==> Swap(s).batches[..|s.batches|] == s.batches;
  }

  /** Over every interleaving without a lost batch or a failed INSERT, each entry the table takes is stored exactly as
      often as the finished batches hold it. */
  lemma {:induction false} DeliveredExactly(flushSize: int, states: seq<State>, actions: seq<Action>, n: nat, e: Entry)
    requires Interleaving(flushSize, states, actions) && n < |states| && NoFailure(actions, n) && Storable(e)
    ensures multiset(states[n].rows)[e] == InFinished(states[n].batches, e)
  {
    hide Do, Storable;
    if n != 0 {
      DeliveredExactly(flushSize, states, actions, n - 1, e);
      DoDeliversAll(states[n - 1], flushSize, actions[n - 1], e);
    }
  }

  lemma {:induction false} AllFinished(batches: seq<Batch>, e: Entry)
    requires forall b | 0 <= b < |batches| :: !batches[b].fate.InFlight?
    ensures InFinished(batches, e) == multiset(Taken(batches))[e]
  {
    if batches != [] { AllFinished(batches[..|batches| - 1], e); }
  }

  /** So once the buffer is empty and no batch is in flight, everything logged that the table takes is stored, as often
      as it was logged. */
  lemma {:induction false} AllDelivered(flushSize: int, states: seq<State>, actions: seq<Action>, n: nat, e: Entry)
    requires Interleaving(flushSize, states, actions) && n < |states| && NoFailure(actions, n) && Storable(e)
    requires states[n].buf == [] && forall b | 0 <= b < |states[n].batches| :: !states[n].batches[b].fate.InFlight?
    ensures multiset(states[n].rows)[e] == multiset(states[n].logged)[e]
  {
    hide Storable, Taken, InFinished;
    DeliveredExactly(flushSize, states, actions, n, e);
    AllFinished(states[n].batches, e);
    LogConservation(flushSize, states, actions, n);
    assert Taken(states[n].batches) + [] == Taken(states[n].batches);
  }

  lemma {:induction false} KeptIsStorable(entries: seq<Entry>, ok: seq<bool>)
    requires |entries| == |ok|
    ensures forall e :: e in Kept(entries, ok) ==> Storable(e)
  {
    if entries != [] { KeptIsStorable(entries[..|entries| - 1], ok[..|entries| - 1]); }
  }

  /** Over every interleaving only storable entries are stored: a lookup on channel `both` is logged, and lost. */
  lemma {:induction false} OnlyStorableIsStored(flushSize: int, states: seq<State>, actions: seq<Action>, n: nat)
    requires Interleaving(flushSize, states, actions) && n < |states|
    ensures forall e :: e in states[n].rows ==> Storable(e) && e.channel != "both"
  {
    hide Kept;
    if n != 0 {
      OnlyStorableIsStored(flushSize, states, actions, n - 1);
      var s, a := states[n - 1], actions[n - 1];
      assert Enabled(s, a) && states[n] == Do(s, flushSize, a);
      if a.Commit? { KeptIsStorable(s.batches[a.batch].entries, a.ok); }
    }
  }

  // --------------------------------------------------------- no lost wake-up

  /** Over every interleaving and for every threshold, each entry of the buffer from the threshold on is matched by a
      flush that is about to be spawned or has yet to swap; a buffer that has reached the threshold always has one. */
  lemma {:induction false} NoLostWakeUp(flushSize: int, states: seq<State>, actions: seq<Action>, n: nat)
    requires Interleaving(flushSize, states, actions) && n < |states|
    ensures |states[n].buf| <= (if flushSize >= 1 then flushSize - 1 else 0) + states[n].due + states[n].spawned
    ensures states[n].buf != [] && |states[n].buf| >= flushSize ==> states[n].due + states[n].spawned > 0
  {
    if n != 0 { NoLostWakeUp(flushSize, states, actions, n - 1); }
  }

  // ---------------------------------------------------------------- the code

  /** The writer, one method for each atomic section; the ghost fields record what the sections are claimed to do. */
  class AsyncWriter {
    var buf: seq<Entry>
    const flushSize: int
    var queryLog: seq<Entry>
    ghost var logged: seq<Entry>
    ghost var batches: seq<Batch>
    ghost var due: nat
    ghost var spawned: nat

    ghost function View(): State
      reads this
    {
      State(buf, logged, batches, due, spawned, queryLog)
    }

    constructor (flushSize: int)
      ensures View() == START && this.flushSize == flushSize
    {
      this.flushSize := flushSize;
      buf, queryLog, logged, batches, due, spawned := [], [], [], [], 0, 0;
    }

    /** Log between Lock and Unlock; the caller spawns a flush when the answer is true. */
    method Log(e: Entry) returns (shouldFlush: bool)
      modifies this
      ensures View() == Do(old(View()), flushSize, Append(e))
      ensures shouldFlush <==> |buf| >= flushSize
      ensures buf == old(buf) + [e] && due == if shouldFlush then old(due) + 1 else old(due)
    {
      buf := buf + [e];
      shouldFlush := |buf| >= flushSize;
      logged := logged + [e];
      due := if shouldFlush then due + 1 else due;
    }

    /** `go w.flush()` */
    method Go()
      requires due > 0
      modifies this
      ensures View() == Do(old(View()), flushSize, Spawn)
    {
      due, spawned := due - 1, spawned + 1;
    }

    /** flush between Lock and Unlock. */
    method TakeBatch(ghost bySpawned: bool) returns (entries: seq<Entry>)
      requires bySpawned ==> spawned > 0
      modifies this
      ensures View() == Do(old(View()), flushSize, if bySpawned then SpawnedSwap else OtherSwap)
      ensures entries == old(buf) && buf == []
      ensures batches == if entries == [] then old(batches) else old(batches) + [Batch(entries, InFlight)]
    {
      spawned := if bySpawned then spawned - 1 else spawned;
      if |buf| == 0 {
        return [];
      }
      entries := buf;
      buf := [];
      batches := batches + [Batch(entries, InFlight)];
    }

    /** The rest of flush when its transaction commits; `ok` tells which INSERTs the driver would let through. */
    method WriteBatch(entries: seq<Entry>, ok: seq<bool>, ghost b: nat)
      requires b < |batches| && batches[b] == Batch(entries, InFlight) && |ok| == |entries|
      modifies this
      ensures View() == Do(old(View()), flushSize, Commit(b, ok))
      ensures exists stored :: StoredOf(entries, ok, stored) && queryLog == old(queryLog) + stored
    {
      var inserted: seq<Entry> := [];
      for i := 0 to |entries|
        invariant inserted == Kept(entries[..i], ok[..i])
      {
        if ok[i] && Storable(entries[i]) {
          inserted := inserted + [entries[i]];
        }
        assert entries[..i + 1][..i] == entries[..i] && ok[..i + 1][..i] == ok[..i];
      }
      assert entries[..|entries|] == entries && ok[..|entries|] == ok;
      KeptIsStored(entries, ok);
      queryLog := queryLog + inserted;
      batches := batches[b := Batch(entries, Stored(inserted))];
    }

    /** The rest of flush when its transaction cannot begin, prepare or commit. */
    method DropBatch(entries: seq<Entry>, ghost b: nat)
      requires b < |batches| && batches[b] == Batch(entries, InFlight)
      modifies this
      ensures View() == Do(old(View()), flushSize, Lose(b)) && queryLog == old(queryLog)
    {
      batches := batches[b := Batch(entries, Lost)];
    }
  }
}
