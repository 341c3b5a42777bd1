/** The `dno_numbers` and `number_registry` tables, and the five operations that write them.

    The table is a map, so UNIQUE(phone_number, channel) holds by construction; each statement is read the way SQLite
    executes it, and a column that no modelled statement reads (row ids, created_at) is left out. */
module NumberTable {
  import opened Wrappers
  import opened Phone

  datatype Channel = Voice | Text | Both
  datatype Dataset = Auto | Subscriber | Itg | TssRegistry
  datatype NumberType = TollFree | Local
  datatype Status = Active | Inactive | Pending

  datatype Key = Key(phone: string, channel: Channel)
  datatype Row = Row(dataset: Dataset, numberType: NumberType, status: Status, reason: string,
                     orgId: Option<int>, userId: Option<int>,
                     investigation: Option<string>, threat: Option<string>, updatedAt: int)
  type Table = map<Key, Row>

  datatype RegEntry = RegEntry(owner: Option<int>, numberType: NumberType, status: string, textEnabled: bool)
  type Registry = map<string, RegEntry>

  datatype Db = Db(rows: Table, registry: Registry)

  // ------------------------------------------------------ column validation

  function ChannelName(c: Channel): string {
    match c case Voice => "voice" case Text => "text" case Both => "both"
  }

  function ParseChannel(s: string): (r: Option<Channel>)
    ensures forall c :: r == Some(c) <==> ChannelName(c) == s
  {
    if s == "voice" then Some(Voice) else if s == "text" then Some(Text) else if s == "both" then Some(Both)
    else None
  }

  function StatusName(s: Status): string {
    match s case Active => "active" case Inactive => "inactive" case Pending => "pending"
  }

  function DatasetName(d: Dataset): string {
    match d
    case Auto => "auto" case Subscriber => "subscriber" case Itg => "itg" case TssRegistry => "tss_registry"
  }

  function ParseNumberType(s: string): Option<NumberType> {
    if s == "toll_free" then Some(TollFree) else if s == "local" then Some(Local) else None
  }

  /** An empty request field takes its default. */
  function OrDefault(s: string, default: string): string {
    if s == "" then default else s
  }

  predicate ValidChannel(s: string) { ParseChannel(s).Some? }

  // ---------------------------------------------------------------- lookups

  /** `channel = $2 OR channel = 'both'` */
  predicate Covers(c: Channel, name: string) { ChannelName(c) == name || c == Both }

  /** The WHERE clause every lookup uses: an active row of this number that covers this channel. */
  predicate Matches(t: Table, k: Key, phone: string, channel: string) {
    k in t && k.phone == phone && Covers(k.channel, channel) && t[k].status == Active
  }

  ghost predicate Hit(t: Table, phone: string, channel: string) {
    exists k :: Matches(t, k, phone, channel)
  }

  // ------------------------------------------------------------- statements

  /** AddNumber's INSERT ... ON CONFLICT(phone_number, channel) DO UPDATE. */
  function UpsertSubscriber(t: Table, k: Key, numberType: NumberType, reason: string, org: int, user: int, now: int)
    : Table
  {
    t[k := if k in t then t[k].(status := Active, reason := reason, updatedAt := now)
           else Row(Subscriber, numberType, Active, reason, Some(org), Some(user), None, None, now)]
  }

  /** The rows RemoveNumber's UPDATE selects, whatever their status. */
  predicate Removable(t: Table, k: Key, phone: string, channel: string, org: int) {
    k in t && k.phone == phone && Covers(k.channel, channel) && t[k].dataset == Subscriber && t[k].orgId == Some(org)
  }

  function Deactivate(t: Table, phone: string, channel: string, org: int, now: int): Table {
    map k | k in t :: if Removable(t, k, phone, channel, org) then t[k].(status := Inactive, updatedAt := now) else t[k]
  }

  function UpsertItg(t: Table, k: Key, reason: string, investigation: string, threat: string, now: int): Table {
    t[k := if k in t then t[k].(status := Active, reason := reason, investigation := Some(investigation),
                                threat := Some(threat), dataset := Itg, updatedAt := now)
           else Row(Itg, Local, Active, reason, None, None, Some(investigation), Some(threat), now)]
  }

  function UpsertAuto(t: Table, phone: string, reason: string, now: int): Table {
    var k := Key(phone, Voice);
    t[k := if k in t then t[k].(status := Active, reason := reason, dataset := Auto, updatedAt := now)
           else Row(Auto, Local, Active, reason, None, None, None, None, now)]
  }

  function RetireAuto(t: Table, phone: string, now: int): Table {
    map k | k in t :: if k.phone == phone && t[k].dataset == Auto && t[k].status == Active
                      then t[k].(status := Inactive, updatedAt := now) else t[k]
  }

  function UpsertOwner(g: Registry, phone: string, owner: Option<int>, status: string): Registry {
    g[phone := if phone in g then g[phone].(owner := owner, status := status)
               else RegEntry(owner, Local, status, false)]
  }

  const TSS_REASON := "Non-text-enabled toll-free number (TSS Registry sync)"

  /** The registry numbers the TSS sync's SELECT yields. */
  predicate Qualifies(db: Db, phone: string) {
    && phone in db.registry && db.registry[phone].numberType == TollFree && !db.registry[phone].textEnabled
    && !(Key(phone, Text) in db.rows && db.rows[Key(phone, Text)].dataset == TssRegistry)
  }

  function Qualifying(db: Db): set<string> {
    set phone | phone in db.registry && Qualifies(db, phone)
  }

  /** INSERT ... SELECT without an ON CONFLICT clause: one conflicting number fails the whole statement. */
  predicate SyncConflicts(db: Db) {
    exists phone | phone in db.registry :: Qualifies(db, phone) && Key(phone, Text) in db.rows
  }

  function InsertTss(db: Db, now: int): Table {
    var added := set phone | phone in Qualifying(db) :: Key(phone, Text);
    db.rows + map k | k in added :: Row(TssRegistry, TollFree, Active, TSS_REASON, None, None, None, None, now)
  }

  // --------------------------------------------------------------- requests

  datatype Request =
    | AddNumber(phone: string, numberType: string, channel: string, reason: string, org: int, user: int)
    | RemoveNumber(phone: string, channel: string, org: int)
    | IngestItg(phone: string, investigation: string, threat: string, channel: string)
    | NpacEvent(phone: string, newStatus: string, newOwner: Option<int>)
    | SyncTss

  /** What one request leaves: its answer (the number of rows a sync added, otherwise 0) and the database. */
  datatype Effect = Effect(answer: Result<nat>, db: Db)

  predicate Joins(status: string) { status == "disconnected" || status == "unassigned" }
  predicate Leaves(status: string) { status == "ported" || status == "assigned" }

  /** AddNumber's validation, in the order the code performs it. */
  function AddError(r: Request): Option<Error>
    requires r.AddNumber?
  {
    if !ValidPhone(Normalize(r.phone)) then Some(BadPhone)
    else if ParseChannel(OrDefault(r.channel, "voice")).None? then Some(BadChannel)
    else if ParseNumberType(OrDefault(r.numberType, "local")).None? then Some(BadNumberType)
    else None
  }

  /** The row key an accepted AddNumber writes. */
  function AddKey(r: Request): Key
    requires r.AddNumber? && AddError(r).None?
  {
    Key(Normalize(r.phone), ParseChannel(OrDefault(r.channel, "voice")).value)
  }

  /** An accepted subscriber add of this row. */
  predicate Adds(r: Request, k: Key) {
    r.AddNumber? && AddError(r).None? && AddKey(r) == k
  }

  /** An accepted traceback ingest of this row. */
  predicate Traces(r: Request, k: Key) {
    && r.IngestItg? && ValidPhone(k.phone) && Normalize(r.phone) == k.phone
    && ParseChannel(OrDefault(r.channel, "voice")) == Some(k.channel)
  }

  function Apply(db: Db, r: Request, now: int): Effect {
    match r
    case AddNumber(_, numberType, _, reason, org, user) =>
      if AddError(r).Some? then Effect(Failure(AddError(r).value), db)
      else
        var nt := ParseNumberType(OrDefault(numberType, "local")).value;
        Effect(Success(0), db.(rows := UpsertSubscriber(db.rows, AddKey(r), nt, reason, org, user, now)))
    case RemoveNumber(phoneNumber, channel, org) =>
      var phone, ch := Normalize(phoneNumber), OrDefault(channel, "voice");
      if !ValidChannel(ch) then Effect(Failure(BadChannel), db)
      else if !exists k | k in db.rows :: Removable(db.rows, k, phone, ch, org) then
        Effect(Failure(NotFoundOrNotOwner), db)
      else Effect(Success(0), db.(rows := Deactivate(db.rows, phone, ch, org, now)))
    case IngestItg(phoneNumber, investigation, threat, channel) =>
      var phone, ch := Normalize(phoneNumber), ParseChannel(OrDefault(channel, "voice"));
      if !ValidPhone(phone) then Effect(Failure(BadPhone), db)
      else if ch.None? then Effect(Failure(BadChannel), db)
      else Effect(Success(0), db.(rows := UpsertItg(db.rows, Key(phone, ch.value), "Traceback: " + threat,
                                                    investigation, threat, now)))
    case NpacEvent(phoneNumber, status, owner) =>
      var phone := Normalize(phoneNumber);
      if !ValidPhone(phone) then Effect(Failure(BadPhone), db)
      else if Joins(status) then
        Effect(Success(0), db.(rows := UpsertAuto(db.rows, phone, "NPAC: number " + status, now)))
      else if Leaves(status) then
        Effect(Success(0), Db(RetireAuto(db.rows, phone, now), UpsertOwner(db.registry, phone, owner, status)))
      else Effect(Success(0), db)
    case SyncTss =>
      if SyncConflicts(db) then Effect(Failure(SyncConflict), db)
      else Effect(Success(|Qualifying(db)|), db.(rows := InsertTss(db, now)))
  }

  /** A request and the database's clock when it runs. */
  datatype Timed = Timed(req: Request, at: int)

  function Run(db: Db, rs: seq<Timed>): Db
    decreases |rs|
  {
    if rs == [] then db else Run(Apply(db, rs[0].req, rs[0].at).db, rs[1..])
  }

  lemma {:induction false} RunAppend(db: Db, a: seq<Timed>, b: seq<Timed>)
    ensures Run(db, a + b) == Run(Run(db, a), b)
    decreases |a|
  {
    if a == [] {
      assert a + b == b;
    } else {
      assert (a + b)[1..] == a[1..] + b;
      RunAppend(Apply(db, a[0].req, a[0].at).db, a[1..], b);
    }
  }
}
