/** The monthly partitions of the query log (internal/db/db.go, EnsureQueryLogPartitions), in the proleptic Gregorian
    calendar of Go's `time` package. An instant matters by its UTC date only. */
module Partitions {
  import opened Placeholders

  // --------------------------------------------------------------- calendar

  /** Months are numbered from January of year 0. */
  function Year(m: nat): nat { m / 12 }
  function MonthOfYear(m: nat): nat { m % 12 + 1 }

  predicate Leap(y: nat) { y % 4 == 0 && (y % 100 != 0 || y % 400 == 0) }

  function DaysIn(m: nat): (n: nat)
    ensures 28 <= n <= 31
  {
    var k := MonthOfYear(m);
    if k == 2 then (if Leap(Year(m)) then 29 else 28)
    else if k == 4 || k == 6 || k == 9 || k == 11 then 30
    else 31
  }

  /** The number of days before the month, from the start of year 0. */
  function FirstDay(m: nat): nat {
    if m == 0 then 0 else FirstDay(m - 1) + DaysIn(m - 1)
  }

  datatype Date = Date(month: nat, day: nat)

  predicate ValidDate(d: Date) { 1 <= d.day <= DaysIn(d.month) }

  function DayNumber(d: Date): int { FirstDay(d.month) + d.day - 1 }

  /** AddDate(0, i, 0): a day past the end of the target month overflows into the month after it. */
  function AddMonths(d: Date, i: nat): Date {
    var m := d.month + i;
    if d.day > DaysIn(m) then Date(m + 1, d.day - DaysIn(m)) else Date(m, d.day)
  }

  /** A closed form ties the recursive calendar to the Gregorian rule. */
  lemma {:induction false} YearStart(y: nat)
    ensures FirstDay(12 * y) == 365 * y + (y + 3) / 4 - (y + 99) / 100 + (y + 399) / 400
  {
    hide FirstDay;
    FirstDayOfAll();
    if y > 0 {
      YearStart(y - 1);
      YearLength(y - 1);
      Step4(y - 1);
      Step100(y - 1);
      Step400(y - 1);
      Multiples(y - 1);
    }
  }

  lemma FirstDayOfAll()
    ensures FirstDay(0) == 0
  {
  }

  lemma Step4(y: nat)
    ensures (y + 4) / 4 == (y + 3) / 4 + if y % 4 == 0 then 1 else 0
  {
  }

  lemma Step100(y: nat)
    ensures (y + 100) / 100 == (y + 99) / 100 + if y % 100 == 0 then 1 else 0
  {
  }

  lemma Step400(y: nat)
    ensures (y + 400) / 400 == (y + 399) / 400 + if y % 400 == 0 then 1 else 0
  {
  }

  lemma Multiples(y: nat)
    ensures y % 400 == 0 ==> y % 100 == 0
    ensures y % 100 == 0 ==> y % 4 == 0
  {
    if y % 400 == 0 { assert y == 100 * (4 * (y / 400)); }
    if y % 100 == 0 { assert y == 4 * (25 * (y / 100)); }
  }

  lemma MonthAt(y: nat, k: nat)
    requires k < 12
    ensures MonthOfYear(12 * y + k) == k + 1 && Year(12 * y + k) == y
  {
  }

  lemma FirstHalf(y: nat)
    ensures DaysIn(12 * y) == 31 && DaysIn(12 * y + 1) == (if Leap(y) then 29 else 28) && DaysIn(12 * y + 2) == 31
    ensures DaysIn(12 * y + 3) == 30 && DaysIn(12 * y + 4) == 31 && DaysIn(12 * y + 5) == 30
  {
    hide Leap, MonthOfYear, Year;
    MonthAt(y, 0);
    MonthAt(y, 1);
    MonthAt(y, 2);
    MonthAt(y, 3);
    MonthAt(y, 4);
    MonthAt(y, 5);
  }

  lemma SecondHalf(y: nat)
    ensures DaysIn(12 * y + 6) == 31 && DaysIn(12 * y + 7) == 31 && DaysIn(12 * y + 8) == 30
    ensures DaysIn(12 * y + 9) == 31 && DaysIn(12 * y + 10) == 30 && DaysIn(12 * y + 11) == 31
  {
    hide Leap, MonthOfYear, Year;
    MonthAt(y, 6);
    MonthAt(y, 7);
    MonthAt(y, 8);
    MonthAt(y, 9);
    MonthAt(y, 10);
    MonthAt(y, 11);
  }

  lemma YearLength(y: nat)
    ensures FirstDay(12 * (y + 1)) == FirstDay(12 * y) + if Leap(y) then 366 else 365
  {
    hide FirstDay, DaysIn;
    var j := 12 * y;
    FirstHalf(y);
    SecondHalf(y);
    Months4(j);
    Months4(j + 4);
    Months4(j + 8);
  }

  lemma Months4(m: nat)
    ensures FirstDay(m + 4) == FirstDay(m) + DaysIn(m) + DaysIn(m + 1) + DaysIn(m + 2) + DaysIn(m + 3)
  {
    hide DaysIn;
    assert FirstDay(m + 2) == FirstDay(m + 1) + DaysIn(m + 1);
    assert FirstDay(m + 4) == FirstDay(m + 3) + DaysIn(m + 3);
  }

  lemma {:induction false} MonthsInOrder(a: nat, b: nat)
    requires a < b
    ensures FirstDay(a) + DaysIn(a) <= FirstDay(b)
  {
    if a + 1 < b { MonthsInOrder(a, b - 1); }
  }

  /** Go defines AddDate by normalising the day count; so does the model: the result is the valid date that many days
      after the first of the target month, and no other date is. */
  lemma AddMonthsNormalises(d: Date, i: nat, e: Date)
    requires ValidDate(d) && ValidDate(e)
    ensures ValidDate(AddMonths(d, i))
    ensures e == AddMonths(d, i) <==> DayNumber(e) == FirstDay(d.month + i) + d.day - 1
  {
    var r := AddMonths(d, i);
    assert DayNumber(r) == FirstDay(d.month + i) + d.day - 1;
    if e.month < r.month { MonthsInOrder(e.month, r.month); }
    if r.month < e.month { MonthsInOrder(r.month, e.month); }
  }

  // ------------------------------------------------------------- partitions

  /** The day numbers FROM (inclusive) TO (exclusive). */
  datatype Range = Range(from: int, to: int)
  type Parts = map<string, Range>

  predicate Overlap(a: Range, b: Range) { a.from < b.to && b.from < a.to }

  /** fmt's `%02d` of a month. */
  function TwoDigits(n: nat): string {
    if n < 10 then "0" + Decimal(n) else Decimal(n)
  }

  const PREFIX := "query_log_"

  function NameOf(m: nat): string {
    PREFIX + Decimal(Year(m)) + "_" + TwoDigits(MonthOfYear(m))
  }

  function MonthRange(m: nat): Range { Range(FirstDay(m), FirstDay(m) + DaysIn(m)) }

  /** What the engine leaves: the partitions, and whether the statement was accepted. */
  datatype Outcome = Outcome(accepted: bool, parts: Parts)

  /** CREATE TABLE IF NOT EXISTS ... PARTITION OF: a known name is skipped; a new one must be a nonempty range that
      overlaps no partition. */
  function Create(p: Parts, name: string, r: Range): Outcome {
    if name in p then Outcome(true, p)
    else if r.from < r.to && forall n :: n in p ==> !Overlap(p[n], r) then Outcome(true, p[name := r])
    else Outcome(false, p)
  }

  /** The statement of one pass of the loop. */
  function CreateMonth(p: Parts, now: Date, i: nat): Outcome {
    var t := AddMonths(now, i);
    var start := Date(t.month, 1);
    var end := AddMonths(start, 1);
    Create(p, NameOf(t.month), Range(DayNumber(start), DayNumber(end)))
  }

  /** Passes `i` to 2; a refused statement ends the loop. */
  function EnsureFrom(p: Parts, now: Date, i: nat): Outcome
    decreases 3 - i
  {
    if i >= 3 then Outcome(true, p)
    else
      var o := CreateMonth(p, now, i);
      if o.accepted then EnsureFrom(o.parts, now, i + 1) else o
  }

  function Ensure(p: Parts, now: Date): Outcome { EnsureFrom(p, now, 0) }

  class LogTable {
    const sqlite: bool
    var parts: Parts

    constructor (sqlite: bool)
      ensures this.sqlite == sqlite && parts == map[]
    {
      this.sqlite := sqlite;
      parts := map[];
    }

    method CreatePartition(name: string, r: Range) returns (ok: bool)
      modifies this`parts
      ensures Outcome(ok, parts) == Create(old(parts), name, r)
    {
      if name in parts { return true; }
      if r.from >= r.to || exists n :: n in parts && Overlap(parts[n], r) { return false; }
      parts := parts[name := r];
      return true;
    }

    method EnsureQueryLogPartitions(now: Date) returns (ok: bool)
      modifies this`parts
      ensures Outcome(ok, parts) == if sqlite then Outcome(true, old(parts)) else Ensure(old(parts), now)
    {
      if sqlite { return true; }
      for i := 0 to 3
        invariant EnsureFrom(parts, now, i) == Ensure(old(parts), now)
      {
        var t := AddMonths(now, i);
        var partName := NameOf(t.month);
        var start := Date(t.month, 1);
        var end := AddMonths(start, 1);
        var created := CreatePartition(partName, Range(DayNumber(start), DayNumber(end)));
        if !created { return false; }
      }
      return true;
    }
  }

  // ------------------------------------------------------------------ names

  lemma TwoDigitsAre(n: nat)
    requires 1 <= n <= 12
    ensures TwoDigits(n) == [if n < 10 then '0' else '1', ('0' as int + n % 10) as char]
  {
    if n >= 10 {
      assert n / 10 == 1;
      assert Decimal(1) == "1";
    }
  }

  lemma TwoDigitsInjective(a: nat, b: nat)
    requires 1 <= a <= 12 && 1 <= b <= 12
    ensures |TwoDigits(a)| == 2 && (TwoDigits(a) == TwoDigits(b) ==> a == b)
  {
    hide TwoDigits;
    TwoDigitsAre(a);
    TwoDigitsAre(b);
    if TwoDigits(a) == TwoDigits(b) {
      assert TwoDigits(a)[0] == TwoDigits(b)[0] && TwoDigits(a)[1] == TwoDigits(b)[1];
    }
  }

  /** The name of a month of a year. */
  lemma {:induction false} NameSays(year: nat, month: nat)
    requires 1 <= month <= 12
    ensures NameOf(12 * year + month - 1) ==
            "query_log_" + Decimal(year) + "_" + (if month < 10 then "0" else "") + Decimal(month)
  {
    hide Decimal;
    MonthAt(year, month - 1);
    assert "" + Decimal(month) == Decimal(month);
  }

  lemma NameInjective(a: nat, b: nat)
    requires NameOf(a) == NameOf(b)
    ensures a == b
  {
    hide Decimal, TwoDigits, ParseDecimal;
    TwoDigitsInjective(MonthOfYear(a), MonthOfYear(b));
    TwoDigitsInjective(MonthOfYear(b), MonthOfYear(a));
    var s := NameOf(a);
    assert s[|s| - 2..] == TwoDigits(MonthOfYear(a));
    assert s[|s| - 2..] == TwoDigits(MonthOfYear(b));
    assert s[|PREFIX|..|s| - 3] == Decimal(Year(a));
    assert s[|PREFIX|..|s| - 3] == Decimal(Year(b));
    DecimalParses(Year(a));
    DecimalParses(Year(b));
  }

  // ------------------------------------------------------- months over runs

  /** The partitions are those of exactly the months `ms`, each a whole calendar month under its own name. */
  ghost predicate AreMonths(p: Parts, ms: set<nat>) {
    && (forall m :: m in ms ==> NameOf(m) in p && p[NameOf(m)] == MonthRange(m))
    && (forall n :: n in p ==> exists m :: m in ms && n == NameOf(m))
  }

  lemma MonthsApart(a: nat, b: nat)
    requires a != b
    ensures !Overlap(MonthRange(a), MonthRange(b))
  {
    if a < b { MonthsInOrder(a, b); } else { MonthsInOrder(b, a); }
  }

  lemma {:induction false} CreateMonthIs(p: Parts, ms: set<nat>, now: Date, i: nat)
    requires AreMonths(p, ms) && ValidDate(now)
    ensures
      var o, m := CreateMonth(p, now, i), AddMonths(now, i).month;
      o.accepted && AreMonths(o.parts, ms + {m})
  {
    hide FirstDay, DaysIn, NameOf;
    var m := AddMonths(now, i).month;
    MonthRangeIs(m);
    if m !in ms {
      if NameOf(m) in p {
        var k :| k in ms && NameOf(m) == NameOf(k);
        NameInjective(m, k);
        assert false;
      }
      forall n | n in p ensures !Overlap(p[n], MonthRange(m)) {
        var k :| k in ms && n == NameOf(k);
        MonthsApart(k, m);
      }
    }
  }

  /** The range of one pass is the whole target month. */
  lemma MonthRangeIs(m: nat)
    ensures Range(DayNumber(Date(m, 1)), DayNumber(AddMonths(Date(m, 1), 1))) == MonthRange(m)
    ensures MonthRange(m).from < MonthRange(m).to
  {
  }

  /** The months one maintenance run makes sure of. */
  function Months(now: Date): set<nat> {
    {AddMonths(now, 0).month, AddMonths(now, 1).month, AddMonths(now, 2).month}
  }

  lemma {:induction false} EnsureMonths(p: Parts, ms: set<nat>, now: Date)
    requires AreMonths(p, ms) && ValidDate(now)
    ensures Ensure(p, now).accepted && AreMonths(Ensure(p, now).parts, ms + Months(now))
  {
    hide AreMonths, CreateMonth, AddMonths;
    var a := CreateMonth(p, now, 0).parts;
    var b := CreateMonth(a, now, 1).parts;
    var ma := ms + {AddMonths(now, 0).month};
    var mb := ma + {AddMonths(now, 1).month};
    CreateMonthIs(p, ms, now, 0);
    CreateMonthIs(a, ma, now, 1);
    CreateMonthIs(b, mb, now, 2);
    assert ms + Months(now) == mb + {AddMonths(now, 2).month};
    EnsureUnfolds(p, now);
  }

  lemma EnsureUnfolds(p: Parts, now: Date)
    ensures CreateMonth(p, now, 0).accepted && CreateMonth(CreateMonth(p, now, 0).parts, now, 1).accepted ==>
              Ensure(p, now) == CreateMonth(CreateMonth(CreateMonth(p, now, 0).parts, now, 1).parts, now, 2)
  {
    hide CreateMonth;
    var a := CreateMonth(p, now, 0).parts;
    var b := CreateMonth(a, now, 1).parts;
    assert EnsureFrom(b, now, 2) == CreateMonth(b, now, 2);
    assert CreateMonth(a, now, 1).accepted ==> EnsureFrom(a, now, 1) == EnsureFrom(b, now, 2);
  }

  /** Maintenance runs at any instants, whatever their order. */
  function Runs(p: Parts, nows: seq<Date>): Parts {
    if nows == [] then p else Ensure(Runs(p, nows[..|nows| - 1]), nows[|nows| - 1]).parts
  }

  ghost function AllMonths(nows: seq<Date>): set<nat> {
    set i, m | 0 <= i < |nows| && m in Months(nows[i]) :: m
  }

  lemma {:induction false} RunsMonths(nows: seq<Date>)
    requires forall i | 0 <= i < |nows| :: ValidDate(nows[i])
    ensures AreMonths(Runs(map[], nows), AllMonths(nows))
  {
    if nows != [] {
      var n := |nows| - 1;
      RunsMonths(nows[..n]);
      EnsureMonths(Runs(map[], nows[..n]), AllMonths(nows[..n]), nows[n]);
      AllMonthsStep(nows);
    }
  }

  lemma AllMonthsStep(nows: seq<Date>)
    requires nows != []
    ensures AllMonths(nows) == AllMonths(nows[..|nows| - 1]) + Months(nows[|nows| - 1])
  {
    hide Months;
    var n := |nows| - 1;
    forall m | m in AllMonths(nows) ensures m in AllMonths(nows[..n]) + Months(nows[n]) {
      var i :| 0 <= i < |nows| && m in Months(nows[i]);
      if i < n { assert nows[..n][i] == nows[i]; }
    }
    forall m | m in AllMonths(nows[..n]) + Months(nows[n]) ensures m in AllMonths(nows) {
      if m in AllMonths(nows[..n]) {
        var i :| 0 <= i < n && m in Months(nows[..n][i]);
        assert m in Months(nows[i]);
      }
    }
  }

  /** No maintenance run ever fails: every statement of every run is accepted. */
  lemma {:induction false} RunsSucceed(nows: seq<Date>, now: Date)
    requires ValidDate(now) && forall i | 0 <= i < |nows| :: ValidDate(nows[i])
    ensures Ensure(Runs(map[], nows), now).accepted
  {
    RunsMonths(nows);
    EnsureMonths(Runs(map[], nows), AllMonths(nows), now);
  }

  /** Over all runs: the partitions are whole calendar months, pairwise disjoint, and hold the month of each run. */
  lemma {:induction false} PartitionsAreMonths(nows: seq<Date>)
    requires forall i | 0 <= i < |nows| :: ValidDate(nows[i])
    ensures
      var p := Runs(map[], nows);
      && (forall n :: n in p ==> exists m :: n == NameOf(m) && p[n] == MonthRange(m))
      && (forall a, b :: a in p && b in p && a != b ==> !Overlap(p[a], p[b]))
      && (forall i | 0 <= i < |nows| :: NameOf(nows[i].month) in p)
  {
    hide NameOf, MonthRange, Runs, FirstDay, Overlap;
    RunsMonths(nows);
    var p, ms := Runs(map[], nows), AllMonths(nows);
    forall a, b | a in p && b in p && a != b ensures !Overlap(p[a], p[b]) {
      var x :| x in ms && a == NameOf(x);
      var y :| y in ms && b == NameOf(y);
      MonthsApart(x, y);
    }
    forall i | 0 <= i < |nows| ensures NameOf(nows[i].month) in p {
      assert nows[i].month in Months(nows[i]);
      assert nows[i].month in ms;
    }
  }

  /** An entry of this day has a partition to go to. */
  predicate Stored(p: Parts, day: int) {
    exists n :: n in p && p[n].from <= day < p[n].to
  }

  /** An entry can be stored exactly when one of the runs so far made the partition of its month. */
  lemma {:induction false} StoredIff(nows: seq<Date>, d: Date)
    requires ValidDate(d) && forall i | 0 <= i < |nows| :: ValidDate(nows[i])
    ensures Stored(Runs(map[], nows), DayNumber(d)) <==> exists i | 0 <= i < |nows| :: d.month in Months(nows[i])
  {
    hide Runs, FirstDay, NameOf, Months;
    RunsMonths(nows);
    var p, ms := Runs(map[], nows), AllMonths(nows);
    if d.month in ms {
      assert p[NameOf(d.month)].from <= DayNumber(d) < p[NameOf(d.month)].to;
    }
    if Stored(p, DayNumber(d)) {
      var n :| n in p && p[n].from <= DayNumber(d) < p[n].to;
      var m :| m in ms && n == NameOf(m);
      if m < d.month { MonthsInOrder(m, d.month); }
      if d.month < m { MonthsInOrder(d.month, m); }
      assert m == d.month;
    }
  }

  /** A day can be stored once maintenance has run by day 28 of its month or of one of the two months before. */
  lemma StoredAfterEarlyRun(nows: seq<Date>, i: nat, d: Date)
    requires ValidDate(d) && forall j | 0 <= j < |nows| :: ValidDate(nows[j])
    requires i < |nows| && nows[i].day <= 28 && nows[i].month <= d.month <= nows[i].month + 2
    ensures Stored(Runs(map[], nows), DayNumber(d))
  {
    hide Stored, Runs, FirstDay, Months;
    ThreeMonthsIff(nows[i]);
    StoredIff(nows, d);
  }

  /** The months of one run, day by day. */
  lemma MonthsIff(now: Date, m: nat)
    requires ValidDate(now)
    ensures m in Months(now) <==>
            || m == now.month
            || (m == now.month + 1 && now.day <= DaysIn(now.month + 1))
            || (m == now.month + 2 && (now.day <= DaysIn(now.month + 2) || now.day > DaysIn(now.month + 1)))
            || (m == now.month + 3 && now.day > DaysIn(now.month + 2))
  {
  }

  /** One run makes sure of exactly the current month and the next two when neither is shorter than the day of the
      month, as on days 1 to 28; otherwise it skips a month. */
  lemma ThreeMonthsIff(now: Date)
    requires ValidDate(now)
    ensures Months(now) == {now.month, now.month + 1, now.month + 2} <==>
            now.day <= DaysIn(now.month + 1) && now.day <= DaysIn(now.month + 2)
    ensures now.day <= 28 ==> Months(now) == {now.month, now.month + 1, now.month + 2}
  {
    forall m
      ensures m in Months(now) <==> m in {AddMonths(now, 0).month, AddMonths(now, 1).month, AddMonths(now, 2).month}
    {
    }
    assert now.month + 1 in {now.month, now.month + 1, now.month + 2};
    if now.day > DaysIn(now.month + 1) { assert now.month + 1 !in Months(now); }
    if now.day > DaysIn(now.month + 2) { assert now.month + 3 in Months(now); }
  }

  /** A first run late in January, on a day February does not have, leaves February without a partition. */
  lemma {:induction false} FebruarySkipped(year: nat, day: nat)
    requires ValidDate(Date(12 * year, day)) && day > DaysIn(12 * year + 1)
    ensures Months(Date(12 * year, day)) == {12 * year, 12 * year + 2}
    ensures forall d | ValidDate(d) && d.month == 12 * year + 1 ::
              !Stored(Runs(map[], [Date(12 * year, day)]), DayNumber(d))
  {
    hide Stored, Runs, FirstDay, Months;
    var now := Date(12 * year, day);
    var nows := [now];
    assert DaysIn(12 * year + 2) == 31;
    TwoMonths(now);
    forall d | ValidDate(d) && d.month == now.month + 1 ensures !Stored(Runs(map[], nows), DayNumber(d)) {
      StoredIff(nows, d);
    }
  }

  lemma TwoMonths(now: Date)
    requires now.day > DaysIn(now.month + 1) && now.day <= DaysIn(now.month) && now.day <= DaysIn(now.month + 2)
    ensures Months(now) == {now.month, now.month + 2}
  {
  }

  /** A second run on the same day changes nothing. */
  lemma EnsureTwice(p: Parts, now: Date)
    ensures Ensure(p, now).accepted ==> Ensure(Ensure(p, now).parts, now) == Ensure(p, now)
  {
    hide CreateMonth;
    if !Ensure(p, now).accepted { return; }
    var a := CreateMonth(p, now, 0).parts;
    var b := CreateMonth(a, now, 1).parts;
    var c := CreateMonth(b, now, 2).parts;
    assert EnsureFrom(a, now, 1) == Ensure(p, now);
    assert EnsureFrom(b, now, 2) == Ensure(p, now);
    CreateMonthGrows(a, now, 1);
    CreateMonthGrows(b, now, 2);
    CreateMonthTwice(p, now, 0, c);
    CreateMonthTwice(a, now, 1, c);
    CreateMonthTwice(b, now, 2, c);
  }

  lemma CreateMonthGrows(p: Parts, now: Date, i: nat)
    ensures p.Keys <= CreateMonth(p, now, i).parts.Keys
  {
  }

  lemma CreateMonthTwice(p: Parts, now: Date, i: nat, q: Parts)
    requires CreateMonth(p, now, i).accepted && CreateMonth(p, now, i).parts.Keys <= q.Keys
    ensures CreateMonth(q, now, i) == Outcome(true, q)
  {
  }
}
