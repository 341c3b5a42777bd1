/** One process's cached service as a sequence of steps, each of them a step of the service without a cache. */
module Refinement {
  import opened Wrappers
  import opened Phone
  import opened NumberTable
  import opened TtlCache
  import opened Lookup

  // ------------------------------------------------------ single-process runs

  /** The steps of one process's service when it runs alone: a call of QueryNumber is one Answered or one Filled step, a
      BulkQuery is one such step for each valid number, a writer is one Wrote step, and a sweep is a Lost step. */
  datatype Move =
    | Answered(phone: string, channel: string, at: int, reply: Response)
    | Filled(phone: string, channel: string, at: int, reply: Response)
    | Wrote(req: Request, at: int)
    | Lost

  datatype Service = Service(db: Db, items: Items<Response>)

  ghost predicate Moves(ttl: int, maxSize: nat, s: Service, m: Move, s': Service) {
    match m
    case Answered(phone, channel, at, reply) =>
      ValidPhone(phone) && TtlCache.Lookup(s.items, CacheKey(phone, channel), at) == Some(reply) && s' == s
    case Filled(phone, channel, at, reply) =>
      && ValidPhone(phone) && Admissible(s.db.rows, phone, channel, reply) && s'.db == s.db
      && SetEffect(s.items, maxSize, CacheKey(phone, channel), Entry(reply, at + ttl), s'.items)
    case Wrote(req, at) =>
      var e := Apply(s.db, req, at);
      && (req.AddNumber? || req.RemoveNumber?) && s'.db == e.db
      && s'.items == if e.answer.Success? then WithoutPrefix(s.items, Normalize(req.phone) + ":") else s.items
    case Lost => s'.db == s.db && SubItems(s'.items, s.items)
  }

  /** The same step of a service with no cache at all: every reply is read off the table. */
  ghost predicate UncachedMoves(db: Db, m: Move, db': Db) {
    match m
    case Answered(phone, channel, _, reply) => db' == db && Admissible(db.rows, phone, channel, reply)
    case Filled(phone, channel, _, reply) => db' == db && Admissible(db.rows, phone, channel, reply)
    case Wrote(req, at) => db' == Apply(db, req, at).db
    case Lost => db' == db
  }

  /** The states a service goes through as it makes these moves. */
  ghost predicate Steps(ttl: int, maxSize: nat, states: seq<Service>, moves: seq<Move>) {
    && |states| == |moves| + 1
    && forall i | 0 <= i < |moves| :: Moves(ttl, maxSize, states[i], moves[i], states[i + 1])
  }

  /** These moves lead from `s` to `s'`. */
  ghost predicate Path(ttl: int, maxSize: nat, s: Service, moves: seq<Move>, s': Service) {
    exists states :: Steps(ttl, maxSize, states, moves) && states[0] == s && states[|moves|] == s'
  }

  lemma RejectedWrite(db: Db, r: Request, now: int)
    requires Apply(db, r, now).answer.Failure?
    ensures Apply(db, r, now).db == db
  {
  }

  lemma MoveKeepsCoherence(ttl: int, maxSize: nat, s: Service, m: Move, s': Service)
    requires Moves(ttl, maxSize, s, m, s') && Coherent(s.db.rows, s.items)
    ensures Coherent(s'.db.rows, s'.items) && UncachedMoves(s.db, m, s'.db)
  {
    match m
    case Answered(phone, channel, at, reply) => CoherentGet(s.db.rows, s.items, phone, channel, at);
    case Filled(phone, channel, at, reply) =>
      CoherentSet(s.db.rows, s.items, maxSize, phone, channel, Entry(reply, at + ttl), s'.items);
    case Wrote(req, at) =>
      if Apply(s.db, req, at).answer.Success? {
        forall q | ValidPhone(q) && q != Normalize(req.phone) ensures SameNumber(s.db.rows, s'.db.rows, q) {
          ApplyFrame(s.db, req, at, q);
        }
        CoherentWrite(s.db.rows, s'.db.rows, s.items, Normalize(req.phone));
      } else {
        RejectedWrite(s.db, req, at);
      }
    case Lost => CoherentDrop(s.db.rows, s.items, s'.items);
  }

  /** Exact coherence: over every run of one process alone that starts coherent, as from an empty cache, every cached
      entry, live or expired, is an admissible answer for the table at that moment, and every step is a step of the
      service without a cache. */
  lemma {:induction false} CachedRefinesUncached(ttl: int, maxSize: nat, states: seq<Service>, moves: seq<Move>, n: nat)
    requires Steps(ttl, maxSize, states, moves) && Coherent(states[0].db.rows, states[0].items) && n < |states|
    ensures Coherent(states[n].db.rows, states[n].items)
    ensures n < |moves| ==> UncachedMoves(states[n].db, moves[n], states[n + 1].db)
  {
    hide Moves, Coherent, UncachedMoves;
    if n != 0 {
      CachedRefinesUncached(ttl, maxSize, states, moves, n - 1);
      MoveKeepsCoherence(ttl, maxSize, states[n - 1], moves[n - 1], states[n]);
    }
    if n < |moves| {
      MoveKeepsCoherence(ttl, maxSize, states[n], moves[n], states[n + 1]);
    }
  }

  lemma EmptyIsCoherent(t: Table)
    ensures Coherent(t, map[])
  {
  }

  /** The same moves lead a service without a cache from `db` to `db'`, with the same replies. */
  ghost predicate UncachedPath(db: Db, moves: seq<Move>, db': Db) {
    exists dbs: seq<Db> ::
      && |dbs| == |moves| + 1 && dbs[0] == db && dbs[|moves|] == db'
      && forall i | 0 <= i < |moves| :: UncachedMoves(dbs[i], moves[i], dbs[i + 1])
  }

  /** So whatever its calls, a coherent service does what the service without a cache may do, and stays coherent. */
  lemma {:induction false} PathRefines(ttl: int, maxSize: nat, s: Service, moves: seq<Move>, s': Service)
    requires Path(ttl, maxSize, s, moves, s') && Coherent(s.db.rows, s.items)
    ensures UncachedPath(s.db, moves, s'.db) && Coherent(s'.db.rows, s'.items)
  {
    hide Moves, Coherent, UncachedMoves;
    var states: seq<Service> :| Steps(ttl, maxSize, states, moves) && states[0] == s && states[|moves|] == s';
    var dbs: seq<Db> := seq(|states|, i requires 0 <= i < |states| => states[i].db);
    forall i | 0 <= i < |moves| ensures UncachedMoves(dbs[i], moves[i], dbs[i + 1]) {
      CachedRefinesUncached(ttl, maxSize, states, moves, i);
    }
    CachedRefinesUncached(ttl, maxSize, states, moves, |moves|);
    assert |dbs| == |moves| + 1 && dbs[0] == s.db && dbs[|moves|] == s'.db;
  }

  lemma PathEmpty(ttl: int, maxSize: nat, s: Service)
    ensures Path(ttl, maxSize, s, [], s)
  {
    assert Steps(ttl, maxSize, [s], []);
  }

  lemma PathStep(ttl: int, maxSize: nat, s: Service, moves: seq<Move>, mid: Service, m: Move, s': Service)
    requires Path(ttl, maxSize, s, moves, mid) && Moves(ttl, maxSize, mid, m, s')
    ensures Path(ttl, maxSize, s, moves + [m], s')
  {
    hide Moves;
    var states: seq<Service> :| Steps(ttl, maxSize, states, moves) && states[0] == s && states[|moves|] == mid;
    assert Steps(ttl, maxSize, states + [s'], moves + [m]);
  }

  /** The moves of several calls, one after another, are moves of one run. */
  lemma {:induction false} PathAppend(ttl: int, maxSize: nat, s: Service, a: seq<Move>, mid: Service, b: seq<Move>,
                                      s': Service)
    requires Path(ttl, maxSize, s, a, mid) && Path(ttl, maxSize, mid, b, s')
    ensures Path(ttl, maxSize, s, a + b, s')
  {
    hide Moves;
    var x: seq<Service> :| Steps(ttl, maxSize, x, a) && x[0] == s && x[|a|] == mid;
    var y: seq<Service> :| Steps(ttl, maxSize, y, b) && y[0] == mid && y[|b|] == s';
    var states := x + y[1..];
    forall i | 0 <= i < |a + b| ensures Moves(ttl, maxSize, states[i], (a + b)[i], states[i + 1]) {
      if i < |a| {
        assert states[i] == x[i] && states[i + 1] == x[i + 1] && (a + b)[i] == a[i];
      } else {
        assert states[i] == y[i - |a|] && states[i + 1] == y[i - |a| + 1] && (a + b)[i] == b[i - |a|];
      }
    }
    assert Steps(ttl, maxSize, states, a + b);
  }

  lemma FilledIs(ttl: int, maxSize: nat, s: Service, phone: string, channel: string, at: int, reply: Response,
                 items': Items<Response>)
    requires ValidPhone(phone) && Admissible(s.db.rows, phone, channel, reply)
    requires SetEffect(s.items, maxSize, CacheKey(phone, channel), Entry(reply, at + ttl), items')
    ensures Moves(ttl, maxSize, s, Filled(phone, channel, at, reply), Service(s.db, items'))
  {
    hide Admissible, SetEffect, ValidPhone;
  }

  lemma SweepIsLost(ttl: int, maxSize: nat, s: Service, now: int)
    ensures Moves(ttl, maxSize, s, Lost, s.(items := WithoutExpired(s.items, now)))
  {
  }

  // ------------------------------------------------------- a bulk query's moves

  /** One Answered move for each valid input answered early. */
  function AnsweredMoves(inputs: seq<string>, channel: string, clock: nat -> int, order: seq<nat>,
                         answers: seq<Response>): seq<Move>
    requires |answers| == |order| && forall j | 0 <= j < |order| :: order[j] < |inputs|
  {
    if order == [] then []
    else
      var n := |order| - 1;
      var i := order[n];
      AnsweredMoves(inputs, channel, clock, order[..n], answers[..n])
      + if ValidPhone(Normalize(inputs[i])) then [Answered(Normalize(inputs[i]), channel, clock(i), answers[n])] else []
  }

  /** One Filled move for each input left for the database. */
  function FilledMoves(inputs: seq<string>, channel: string, clock: nat -> int, order: seq<nat>, answers: seq<Response>)
    : seq<Move>
    requires |answers| == |order| && forall j | 0 <= j < |order| :: order[j] < |inputs|
  {
    if order == [] then []
    else
      var n := |order| - 1;
      FilledMoves(inputs, channel, clock, order[..n], answers[..n])
      + [Filled(Normalize(inputs[order[n]]), channel, clock(|inputs| + n), answers[n])]
  }

  /** Nothing is stored for the inputs answered early, and every queried input's own result is. */
  ghost predicate BulkPath(ttl: int, maxSize: nat, s: Service, inputs: seq<string>, channel: string, clock: nat -> int,
                           early: seq<bool>, results: seq<Response>, s': Service)
  {
    var first, late := Positions(early, true), Positions(early, false);
    && |early| == |inputs| && |results| == |first| + |late|
    && Path(ttl, maxSize, s,
            AnsweredMoves(inputs, channel, clock, first, results[..|first|])
            + FilledMoves(inputs, channel, clock, late, results[|first|..]), s')
  }

  lemma {:induction false} AnsweredPath(ttl: int, maxSize: nat, s: Service, inputs: seq<string>, channel: string,
                                        clock: nat -> int, order: seq<nat>, answers: seq<Response>)
    requires |answers| == |order| && EarlyResults(inputs, channel, s.items, clock, order, answers)
    ensures Path(ttl, maxSize, s, AnsweredMoves(inputs, channel, clock, order, answers), s)
  {
    hide Path, Normalize, ValidPhone;
    if order == [] {
      PathEmpty(ttl, maxSize, s);
    } else {
      var n := |order| - 1;
      AnsweredPath(ttl, maxSize, s, inputs, channel, clock, order[..n], answers[..n]);
      var i := order[n];
      if ValidPhone(Normalize(inputs[i])) {
        var m := Answered(Normalize(inputs[i]), channel, clock(i), answers[n]);
        assert EarlyAnswer(inputs[i], channel, s.items, clock(i)) == Some(answers[n]);
        PathStep(ttl, maxSize, s, AnsweredMoves(inputs, channel, clock, order[..n], answers[..n]), s, m, s);
      } else {
        assert AnsweredMoves(inputs, channel, clock, order, answers)
            == AnsweredMoves(inputs, channel, clock, order[..n], answers[..n]);
      }
    }
  }

  /** The first `j` queued inputs have been answered and stored. */
  ghost predicate FillPath(ttl: int, maxSize: nat, s: Service, inputs: seq<string>, channel: string, clock: nat -> int,
                           early: seq<bool>, answers: seq<Response>, s': Service)
  {
    var late := Positions(early, false);
    && |early| <= |inputs| && |answers| <= |late|
    && Path(ttl, maxSize, s, FilledMoves(inputs, channel, clock, late[..|answers|], answers), s')
  }

  lemma FillNothing(ttl: int, maxSize: nat, s: Service, inputs: seq<string>, channel: string, clock: nat -> int,
                    early: seq<bool>)
    requires |early| <= |inputs|
    ensures FillPath(ttl, maxSize, s, inputs, channel, clock, early, [], s)
  {
    hide Path;
    PathEmpty(ttl, maxSize, s);
  }

  lemma FillStep(ttl: int, maxSize: nat, s: Service, inputs: seq<string>, channel: string, clock: nat -> int,
                 early: seq<bool>, answers: seq<Response>, mid: Service, n: string, r: Response, s': Service)
    requires FillPath(ttl, maxSize, s, inputs, channel, clock, early, answers, mid)
    requires |answers| < |Positions(early, false)| && n == Normalize(inputs[Positions(early, false)[|answers|]])
    requires Moves(ttl, maxSize, mid, Filled(n, channel, clock(|inputs| + |answers|), r), s')
    ensures FillPath(ttl, maxSize, s, inputs, channel, clock, early, answers + [r], s')
  {
    hide Path, Moves, Normalize, Positions;
    var late, j := Positions(early, false), |answers|;
    var before := FilledMoves(inputs, channel, clock, late[..j], answers);
    PathStep(ttl, maxSize, s, before, mid, Filled(n, channel, clock(|inputs| + j), r), s');
    assert late[..j + 1][..j] == late[..j] && (answers + [r])[..j] == answers;
  }

  lemma BulkPathIs(ttl: int, maxSize: nat, s: Service, inputs: seq<string>, channel: string, clock: nat -> int,
                   early: seq<bool>, first: seq<Response>, rest: seq<Response>, s': Service)
    requires EarlyWhen(inputs, channel, s.items, clock, early, first) && |first| == |Positions(early, true)|
    requires |early| == |inputs| && |rest| == |Positions(early, false)|
    requires FillPath(ttl, maxSize, s, inputs, channel, clock, early, rest, s')
    ensures BulkPath(ttl, maxSize, s, inputs, channel, clock, early, first + rest, s')
  {
    hide Path, Positions, EarlyResults, AnsweredMoves, FilledMoves;
    var a, b := Positions(early, true), Positions(early, false);
    AnsweredPath(ttl, maxSize, s, inputs, channel, clock, a, first);
    assert b[..|b|] == b && (first + rest)[..|a|] == first && (first + rest)[|a|..] == rest;
    PathAppend(ttl, maxSize, s, AnsweredMoves(inputs, channel, clock, a, first), s,
               FilledMoves(inputs, channel, clock, b, rest), s');
  }

  // ------------------------------------------------ one answer for each number

  /** The answer the last loop of a bulk query gives, from its map of scanned rows. */
  function DbAnswer(t: Table, dnoHits: map<string, Key>, n: string, channel: string): Response {
    if n in dnoHits && dnoHits[n] in t then HitResponse(dnoHits[n], t[dnoHits[n]]) else MissResponse(n, channel)
  }

  lemma DbAnswerAdmissible(t: Table, uncached: seq<string>, dnoHits: map<string, Key>, n: string, channel: string)
    requires HitsOf(t, uncached, channel, dnoHits) && n in uncached
    ensures Admissible(t, n, channel, DbAnswer(t, dnoHits, n, channel))
  {
    if n in dnoHits { assert Matches(t, dnoHits[n], n, channel); }
  }

  ghost predicate FromDb(t: Table, dnoHits: map<string, Key>, channel: string, toQuery: seq<string>,
                         answers: seq<Response>)
  {
    |answers| <= |toQuery| && forall j | 0 <= j < |answers| :: answers[j] == DbAnswer(t, dnoHits, toQuery[j], channel)
  }

  lemma FromDbStep(t: Table, dnoHits: map<string, Key>, channel: string, toQuery: seq<string>, answers: seq<Response>)
    requires FromDb(t, dnoHits, channel, toQuery, answers) && |answers| < |toQuery|
    ensures FromDb(t, dnoHits, channel, toQuery, answers + [DbAnswer(t, dnoHits, toQuery[|answers|], channel)])
  {
    hide DbAnswer;
  }

  lemma FromDbNothing(t: Table, dnoHits: map<string, Key>, channel: string, toQuery: seq<string>)
    ensures FromDb(t, dnoHits, channel, toQuery, [])
  {
  }

  /** Inputs that reach the database and normalise to the same number get the same answer. */
  ghost predicate OneAnswerEach(inputs: seq<string>, early: seq<bool>, results: seq<Response>) {
    var first, late := Positions(early, true), Positions(early, false);
    && |early| <= |inputs| && |results| == |first| + |late|
    && forall j, l | 0 <= j < l < |late| && Normalize(inputs[late[j]]) == Normalize(inputs[late[l]]) ::
         results[|first| + j] == results[|first| + l]
  }

  lemma OneAnswerIs(t: Table, dnoHits: map<string, Key>, channel: string, inputs: seq<string>, early: seq<bool>,
                    toQuery: seq<string>, uncached: seq<string>, first: seq<Response>, rest: seq<Response>)
    requires Queued(inputs, early, toQuery, uncached) && FromDb(t, dnoHits, channel, toQuery, rest)
    requires |first| == |Positions(early, true)| && |rest| == |Positions(early, false)|
    ensures OneAnswerEach(inputs, early, first + rest)
  {
    hide DbAnswer, Normalize, Positions, ValidPhone;
    var late := Positions(early, false);
    forall j, l | 0 <= j < l < |late| && Normalize(inputs[late[j]]) == Normalize(inputs[late[l]])
      ensures (first + rest)[|first| + j] == (first + rest)[|first| + l]
    {
      assert toQuery[j] == toQuery[l];
    }
  }
}
