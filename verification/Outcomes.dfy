/** What a caller finds after each write, column by column. The predicates name the columns and the constants the
    statements write; none of them mentions the functions that execute the statements. */
module Outcomes {
  import opened Wrappers
  import opened Phone
  import opened NumberTable

  /** The channel a request's text asks for. */
  predicate AsksChannel(s: string, c: Channel) {
    match c
    case Voice => s == "voice" || s == ""
    case Text => s == "text"
    case Both => s == "both"
  }

  predicate AsksType(s: string, nt: NumberType) {
    match nt
    case Local => s == "local" || s == ""
    case TollFree => s == "toll_free"
  }

  const CHANNELS := {"", "voice", "text", "both"}
  const TYPES := {"", "local", "toll_free"}

  /** Every row but this one is as it was, and this one exists. */
  ghost predicate OnlyRow(t: Table, t': Table, k: Key) {
    t'.Keys == t.Keys + {k} && forall other | other in t && other != k :: t'[other] == t[other]
  }

  // -------------------------------------------------------------------- adds

  ghost predicate Added(before: Db, after: Db, req: Request, now: int)
    requires req.AddNumber?
  {
    exists c, nt ::
      var k := Key(Normalize(req.phone), c);
      && AsksChannel(req.channel, c) && AsksType(req.numberType, nt)
      && OnlyRow(before.rows, after.rows, k) && after.registry == before.registry
      && after.rows[k] ==
         if k in before.rows then before.rows[k].(status := Active, reason := req.reason, updatedAt := now)
         else Row(Subscriber, nt, Active, req.reason, Some(req.org), Some(req.user), None, None, now)
  }

  /** An add is refused for the first bad field: number, channel, type. */
  ghost predicate AddOutcome(before: Db, req: Request, now: int, r: Result<nat>, after: Db)
    requires req.AddNumber?
  {
    if !ValidPhone(Normalize(req.phone)) then r == Failure(BadPhone) && after == before
    else if req.channel !in CHANNELS then r == Failure(BadChannel) && after == before
    else if req.numberType !in TYPES then r == Failure(BadNumberType) && after == before
    else r == Success(0) && Added(before, after, req, now)
  }

  lemma AddOutcomeIs(before: Db, req: Request, now: int)
    requires req.AddNumber?
    ensures AddOutcome(before, req, now, Apply(before, req, now).answer, Apply(before, req, now).db)
  {
    hide Normalize, ValidPhone, Covers;
    var e := Apply(before, req, now);
    if e.answer.Success? {
      var c := ParseChannel(OrDefault(req.channel, "voice")).value;
      var nt := ParseNumberType(OrDefault(req.numberType, "local")).value;
      assert AsksChannel(req.channel, c) && AsksType(req.numberType, nt);
      assert OnlyRow(before.rows, e.db.rows, Key(Normalize(req.phone), c));
    }
  }

  // ----------------------------------------------------------------- removes

  /** The rows a remove is about: this organisation's subscriber rows of the number that cover the channel. */
  predicate IsOwn(t: Table, k: Key, req: Request)
    requires req.RemoveNumber?
  {
    && k in t && k.phone == Normalize(req.phone) && (AsksChannel(req.channel, k.channel) || k.channel == Both)
    && t[k].dataset == Subscriber && t[k].orgId == Some(req.org)
  }

  ghost predicate Removed(before: Db, after: Db, req: Request, now: int)
    requires req.RemoveNumber?
  {
    && after.rows.Keys == before.rows.Keys && after.registry == before.registry
    && forall k | k in before.rows ::
         after.rows[k] ==
         if IsOwn(before.rows, k, req) then before.rows[k].(status := Inactive, updatedAt := now) else before.rows[k]
  }

  ghost predicate RemoveOutcome(before: Db, req: Request, now: int, r: Result<nat>, after: Db)
    requires req.RemoveNumber?
  {
    if req.channel !in CHANNELS then r == Failure(BadChannel) && after == before
    else if !exists k :: IsOwn(before.rows, k, req) then r == Failure(NotFoundOrNotOwner) && after == before
    else r == Success(0) && Removed(before, after, req, now)
  }

  lemma RemoveOutcomeIs(before: Db, req: Request, now: int)
    requires req.RemoveNumber?
    ensures RemoveOutcome(before, req, now, Apply(before, req, now).answer, Apply(before, req, now).db)
  {
    hide Normalize, ValidPhone;
    var phone, ch := Normalize(req.phone), OrDefault(req.channel, "voice");
    if ValidChannel(ch) {
      forall k ensures Removable(before.rows, k, phone, ch, req.org) <==> IsOwn(before.rows, k, req) {
      }
    }
  }

  // -------------------------------------------------------------- tracebacks

  /** The row is an active ITG row with this traceback's details and keeps its owner. */
  ghost predicate Ingested(before: Db, after: Db, req: Request, now: int)
    requires req.IngestItg?
  {
    exists c ::
      var k := Key(Normalize(req.phone), c);
      && AsksChannel(req.channel, c)
      && OnlyRow(before.rows, after.rows, k) && after.registry == before.registry
      && (after.rows[k] ==
          if k in before.rows then
            before.rows[k].(dataset := Itg, status := Active, reason := "Traceback: " + req.threat,
                            investigation := Some(req.investigation), threat := Some(req.threat), updatedAt := now)
          else Row(Itg, Local, Active, "Traceback: " + req.threat, None, None, Some(req.investigation),
                   Some(req.threat), now))
      && forall channel | Covers(c, channel) :: Hit(after.rows, k.phone, channel)
  }

  ghost predicate IngestOutcome(before: Db, req: Request, now: int, r: Result<nat>, after: Db)
    requires req.IngestItg?
  {
    if !ValidPhone(Normalize(req.phone)) then r == Failure(BadPhone) && after == before
    else if req.channel !in CHANNELS then r == Failure(BadChannel) && after == before
    else r == Success(0) && Ingested(before, after, req, now)
  }

  lemma IngestOutcomeIs(before: Db, req: Request, now: int)
    requires req.IngestItg?
    ensures IngestOutcome(before, req, now, Apply(before, req, now).answer, Apply(before, req, now).db)
  {
    hide Normalize, ValidPhone;
    var e := Apply(before, req, now);
    if e.answer.Success? {
      var c := ParseChannel(OrDefault(req.channel, "voice")).value;
      var k := Key(Normalize(req.phone), c);
      assert AsksChannel(req.channel, c) && OnlyRow(before.rows, e.db.rows, k);
      forall channel | Covers(c, channel) ensures Hit(e.db.rows, k.phone, channel) {
        assert Matches(e.db.rows, k, k.phone, channel);
      }
    }
  }

  // ---------------------------------------------------------- porting events

  /** A disconnected or unassigned number: its voice row is an active auto row. */
  ghost predicate Joined(before: Db, after: Db, phone: string, status: string, now: int) {
    var k, reason := Key(phone, Voice), "NPAC: number " + status;
    && OnlyRow(before.rows, after.rows, k) && after.registry == before.registry
    && after.rows[k] ==
       if k in before.rows then before.rows[k].(dataset := Auto, status := Active, reason := reason, updatedAt := now)
       else Row(Auto, Local, Active, reason, None, None, None, None, now)
  }

  /** A ported or assigned number: the registry shows its owner, and its active auto rows are inactive. */
  ghost predicate Left(before: Db, after: Db, phone: string, owner: Option<int>, status: string, now: int) {
    && after.registry ==
       before.registry[phone :=
         if phone in before.registry then before.registry[phone].(owner := owner, status := status)
         else RegEntry(owner, Local, status, false)]
    && after.rows.Keys == before.rows.Keys
    && forall k | k in before.rows ::
         after.rows[k] ==
         if k.phone == phone && before.rows[k].dataset == Auto && before.rows[k].status == Active
         then before.rows[k].(status := Inactive, updatedAt := now) else before.rows[k]
  }

  ghost predicate NpacOutcome(before: Db, req: Request, now: int, r: Result<nat>, after: Db)
    requires req.NpacEvent?
  {
    var phone, status := Normalize(req.phone), req.newStatus;
    if !ValidPhone(phone) then r == Failure(BadPhone) && after == before
    else
      && r == Success(0)
      && if status == "disconnected" || status == "unassigned" then Joined(before, after, phone, status, now)
         else if status == "ported" || status == "assigned" then Left(before, after, phone, req.newOwner, status, now)
         else after == before
  }

  lemma NpacOutcomeIs(before: Db, req: Request, now: int)
    requires req.NpacEvent?
    ensures NpacOutcome(before, req, now, Apply(before, req, now).answer, Apply(before, req, now).db)
  {
    hide Normalize, ValidPhone;
  }

  // --------------------------------------------------------------- the sync

  /** A registered toll-free number without text. */
  predicate IsListed(db: Db, phone: string) {
    phone in db.registry && db.registry[phone].numberType == TollFree && !db.registry[phone].textEnabled
  }

  /** Every listed number now has a text row; the rows that are new have these columns. */
  ghost predicate SyncedTo(before: Db, after: Db, now: int) {
    && after.registry == before.registry
    && (forall k :: k in after.rows <==> k in before.rows || (k.channel == Text && IsListed(before, k.phone)))
    && forall k | k in after.rows ::
         after.rows[k] ==
         if k in before.rows then before.rows[k]
         else Row(TssRegistry, TollFree, Active, "Non-text-enabled toll-free number (TSS Registry sync)",
                  None, None, None, None, now)
  }

  /** The sync is refused when some listed number's text row belongs to another dataset; otherwise it answers how many
      rows are new. */
  ghost predicate SyncOutcome(before: Db, now: int, r: Result<nat>, after: Db) {
    if exists phone :: IsListed(before, phone) && Key(phone, Text) in before.rows
                       && before.rows[Key(phone, Text)].dataset != TssRegistry
    then r == Failure(SyncConflict) && after == before
    else r.Success? && SyncedTo(before, after, now) && |after.rows| == |before.rows| + r.value
  }

  // ------------------------------------------------------------------ answers

  predicate ChannelText(c: Channel, s: string) {
    match c
    case Voice => s == "voice"
    case Text => s == "text"
    case Both => s == "both"
  }

  /** A row a lookup on this channel may report. */
  predicate IsBlocking(t: Table, k: Key, phone: string, channel: string) {
    k in t && k.phone == phone && t[k].status == Active && (ChannelText(k.channel, channel) || k.channel == Both)
  }
}
