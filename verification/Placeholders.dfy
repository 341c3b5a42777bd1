/** The `$N` to `?` rewriting of queries (internal/db/db.go) and the two builders whose queries it must not change
    (internal/service/dno.go). */
module Placeholders {
  import opened Phone

  datatype Value = Int(n: int) | Str(s: string)

  /** A query with its arguments put in place: a character of text, the argument of a place, or a place without one. */
  datatype Piece = Text(c: char) | Bound(v: Value) | Unbound

  // -------------------------------------------------------------- numerals

  function Decimal(n: nat): string {
    if n < 10 then [('0' as int + n) as char] else Decimal(n / 10) + [('0' as int + n % 10) as char]
  }

  function DigitValue(c: char): nat
    requires IsDigit(c)
  {
    c as int - '0' as int
  }

  predicate AllDigits(s: string) {
    forall i | 0 <= i < |s| :: IsDigit(s[i])
  }

  function ParseDecimal(s: string): nat
    requires AllDigits(s)
  {
    if s == [] then 0 else 10 * ParseDecimal(s[..|s| - 1]) + DigitValue(s[|s| - 1])
  }

  lemma {:induction false} DecimalParses(n: nat)
    ensures Decimal(n) != [] && AllDigits(Decimal(n)) && ParseDecimal(Decimal(n)) == n
  {
    if n >= 10 {
      DecimalParses(n / 10);
      assert Decimal(n)[..|Decimal(n)| - 1] == Decimal(n / 10);
    } else {
      assert Decimal(n)[..0] == [];
    }
  }

  // ------------------------------------------------- the rewriting, `\$\d+`

  function DigitRun(s: string): (n: nat)
    ensures n <= |s| && AllDigits(s[..n])
  {
    if s == [] || !IsDigit(s[0]) then 0 else 1 + DigitRun(s[1..])
  }

  /** A placeholder starts here. */
  predicate AtPlace(s: string) {
    |s| >= 2 && s[0] == '$' && IsDigit(s[1])
  }

  function PlaceLength(s: string): (n: nat)
    requires AtPlace(s)
    ensures 2 <= n <= |s| && AllDigits(s[1..n])
  {
    var n := 1 + DigitRun(s[1..]);
    assert s[1..n] == s[1..][..n - 1];
    n
  }

  function Rewrite(s: string): string {
    if s == [] then []
    else if AtPlace(s) then "?" + Rewrite(s[PlaceLength(s)..])
    else [s[0]] + Rewrite(s[1..])
  }

  function Q(sqlite: bool, query: string): string {
    if sqlite then Rewrite(query) else query
  }

  // ---------------------------------------------------------------- binding

  /** The number of each place, from left to right. */
  function Numbers(s: string): seq<int> {
    if s == [] then []
    else if AtPlace(s) then [ParseDecimal(s[1..PlaceLength(s)])] + Numbers(s[PlaceLength(s)..])
    else Numbers(s[1..])
  }

  function Argument(args: seq<Value>, i: int): Piece {
    if 0 <= i < |args| then Bound(args[i]) else Unbound
  }

  /** PostgreSQL's reading: place `$n` takes the n-th argument. */
  function BindNumbered(s: string, args: seq<Value>): seq<Piece> {
    if s == [] then []
    else if AtPlace(s) then
      [Argument(args, ParseDecimal(s[1..PlaceLength(s)]) - 1)] + BindNumbered(s[PlaceLength(s)..], args)
    else [Text(s[0])] + BindNumbered(s[1..], args)
  }

  /** SQLite's reading: each `?` takes the next argument. */
  function BindPositional(s: string, args: seq<Value>, next: nat): seq<Piece> {
    if s == [] then []
    else if s[0] == '?' then [Argument(args, next)] + BindPositional(s[1..], args, next + 1)
    else [Text(s[0])] + BindPositional(s[1..], args, next)
  }

  /** The places of `ns` name, in order, the arguments from `from` on, or equal ones. */
  predicate PlacesAgree(ns: seq<int>, args: seq<Value>, from: nat) {
    ns == [] || (Argument(args, ns[0] - 1) == Argument(args, from) && PlacesAgree(ns[1..], args, from + 1))
  }

  lemma {:induction false} RewriteFromIff(s: string, args: seq<Value>, from: nat)
    requires '?' !in s
    ensures BindPositional(Rewrite(s), args, from) == BindNumbered(s, args) <==> PlacesAgree(Numbers(s), args, from)
    decreases |s|
  {
    if s != [] {
      if AtPlace(s) {
        var rest := s[PlaceLength(s)..];
        RewriteFromIff(rest, args, from + 1);
        assert Rewrite(s) == "?" + Rewrite(rest) && Rewrite(s)[1..] == Rewrite(rest);
        assert Numbers(s)[1..] == Numbers(rest);
        ConsEqual(Argument(args, from), BindPositional(Rewrite(rest), args, from + 1),
                  Argument(args, Numbers(s)[0] - 1), BindNumbered(rest, args));
      } else {
        RewriteFromIff(s[1..], args, from);
        assert Rewrite(s)[1..] == Rewrite(s[1..]);
        ConsEqual(Text(s[0]), BindPositional(Rewrite(s[1..]), args, from), Text(s[0]), BindNumbered(s[1..], args));
      }
    }
  }

  /** Place `j` names the argument at `from + j`, or an equal one. */
  predicate PlaceAgrees(ns: seq<int>, args: seq<Value>, from: nat, j: int)
    requires 0 <= j < |ns|
  {
    Argument(args, ns[j] - 1) == Argument(args, from + j)
  }

  lemma {:induction false} PlacesAgreeIff(ns: seq<int>, args: seq<Value>, from: nat)
    ensures PlacesAgree(ns, args, from) <==> forall j | 0 <= j < |ns| :: PlaceAgrees(ns, args, from, j)
  {
    hide Argument;
    if ns != [] {
      var rest, next: nat := ns[1..], from + 1;
      PlacesAgreeIff(rest, args, next);
      forall j | 0 <= j < |rest| ensures PlaceAgrees(rest, args, next, j) <==> PlaceAgrees(ns, args, from, j + 1) {
        assert rest[j] == ns[j + 1] && next + j == from + (j + 1);
      }
      assert PlacesAgree(ns, args, from) <==> PlaceAgrees(ns, args, from, 0) && PlacesAgree(rest, args, next);
      if forall j | 0 <= j < |rest| :: PlaceAgrees(rest, args, next, j) {
        forall j | 1 <= j < |ns| ensures PlaceAgrees(ns, args, from, j) {
          assert PlaceAgrees(rest, args, next, j - 1);
        }
      }
      if forall j | 0 <= j < |ns| :: PlaceAgrees(ns, args, from, j) {
        forall j | 0 <= j < |rest| ensures PlaceAgrees(rest, args, next, j) {
          assert PlaceAgrees(ns, args, from, j + 1);
        }
      }
    }
  }

  lemma ConsEqual<T>(a: T, p: seq<T>, b: T, q: seq<T>)
    ensures [a] + p == [b] + q <==> a == b && p == q
  {
    assert ([a] + p)[0] == a && ([a] + p)[1..] == p;
    assert ([b] + q)[0] == b && ([b] + q)[1..] == q;
  }

  lemma PlacesInOrderIff(ns: seq<int>, args: seq<Value>)
    ensures PlacesAgree(ns, args, 0) <==> forall j | 0 <= j < |ns| :: Argument(args, ns[j] - 1) == Argument(args, j)
  {
    hide PlacesAgree, Argument;
    PlacesAgreeIff(ns, args, 0);
    forall j | 0 <= j < |ns|
      ensures PlaceAgrees(ns, args, 0, j) <==> Argument(args, ns[j] - 1) == Argument(args, j)
    {
      assert 0 + j == j;
    }
  }

  lemma RewriteIsQ(s: string)
    ensures Q(true, s) == Rewrite(s)
  {
  }

  /** The rewriting preserves a query's meaning exactly when its places take the arguments in order. */
  lemma RewritePreservesIff(s: string, args: seq<Value>)
    requires '?' !in s
    ensures BindPositional(Q(true, s), args, 0) == BindNumbered(s, args) <==>
            forall j | 0 <= j < |Numbers(s)| :: Argument(args, Numbers(s)[j] - 1) == Argument(args, j)
  {
    hide *;
    RewriteFromIff(s, args, 0);
    PlacesInOrderIff(Numbers(s), args);
    RewriteIsQ(s);
  }

  // ------------------------------------------------------ building a query

  /** Text that cannot run into a placeholder before it and contains none. */
  predicate Plain(s: string) {
    && '$' !in s && '?' !in s
    && (s != [] ==> !IsDigit(s[0]))
  }

  function TextOf(s: string): seq<Piece> {
    seq(|s|, i requires 0 <= i < |s| => Text(s[i]))
  }

  lemma {:induction false} DigitRunAppend(a: string, b: string)
    requires b == [] || !IsDigit(b[0])
    ensures DigitRun(a + b) == DigitRun(a)
  {
    if a == [] {
      assert a + b == b;
    } else {
      assert (a + b)[1..] == a[1..] + b;
      DigitRunAppend(a[1..], b);
    }
  }

  lemma PlaceAppend(a: string, b: string)
    requires AtPlace(a) && (b == [] || !IsDigit(b[0]))
    ensures AtPlace(a + b) && PlaceLength(a + b) == PlaceLength(a)
    ensures (a + b)[1..PlaceLength(a)] == a[1..PlaceLength(a)] && (a + b)[PlaceLength(a)..] == a[PlaceLength(a)..] + b
  {
    assert (a + b)[1..] == a[1..] + b;
    DigitRunAppend(a[1..], b);
  }

  lemma {:induction false} NumbersAppend(a: string, b: string)
    requires b == [] || !IsDigit(b[0])
    ensures Numbers(a + b) == Numbers(a) + Numbers(b)
    decreases |a|
  {
    if a == [] {
      assert a + b == b;
    } else if AtPlace(a) {
      PlaceAppend(a, b);
      NumbersAppend(a[PlaceLength(a)..], b);
    } else {
      assert (a + b)[1..] == a[1..] + b;
      NumbersAppend(a[1..], b);
    }
  }

  lemma BindStep(s: string, args: seq<Value>) returns (first: Piece, rest: string)
    requires s != []
    ensures BindNumbered(s, args) == [first] + BindNumbered(rest, args)
    ensures rest == s[if AtPlace(s) then PlaceLength(s) else 1..]
    ensures first == if AtPlace(s) then Argument(args, ParseDecimal(s[1..PlaceLength(s)]) - 1) else Text(s[0])
  {
    rest := s[if AtPlace(s) then PlaceLength(s) else 1..];
    first := if AtPlace(s) then Argument(args, ParseDecimal(s[1..PlaceLength(s)]) - 1) else Text(s[0]);
  }

  lemma {:induction false} BindAppend(a: string, b: string, args: seq<Value>)
    requires b == [] || !IsDigit(b[0])
    ensures BindNumbered(a + b, args) == BindNumbered(a, args) + BindNumbered(b, args)
    decreases |a|
  {
    hide BindNumbered;
    if a == [] {
      assert a + b == b;
      BindNothing(args);
    } else {
      var x, rest := BindStep(a, args);
      var y, rest' := BindStep(a + b, args);
      if AtPlace(a) {
        PlaceAppend(a, b);
      } else {
        assert (a + b)[1..] == a[1..] + b;
      }
      BindAppend(rest, b, args);
      assert x == y && rest' == rest + b;
    }
  }

  lemma BindNothing(args: seq<Value>)
    ensures BindNumbered([], args) == []
  {
  }

  lemma Append(a: string, b: string, args: seq<Value>)
    requires b == [] || !IsDigit(b[0])
    ensures Numbers(a + b) == Numbers(a) + Numbers(b)
    ensures BindNumbered(a + b, args) == BindNumbered(a, args) + BindNumbered(b, args)
  {
    NumbersAppend(a, b);
    BindAppend(a, b, args);
  }

  lemma {:induction false} PlainBinds(s: string, args: seq<Value>)
    requires '$' !in s
    ensures Numbers(s) == [] && BindNumbered(s, args) == TextOf(s)
  {
    if s != [] {
      PlainBinds(s[1..], args);
    }
  }

  lemma {:induction false} DigitRunAll(s: string)
    requires AllDigits(s)
    ensures DigitRun(s) == |s|
  {
    if s != [] { DigitRunAll(s[1..]); }
  }

  /** fmt.Sprintf("$%d", n) */
  function Place(n: nat): string {
    "$" + Decimal(n)
  }

  lemma PlaceBinds(n: nat, args: seq<Value>)
    ensures Numbers(Place(n)) == [n] && BindNumbered(Place(n), args) == [Argument(args, n - 1)]
    ensures '?' !in Place(n)
  {
    DecimalParses(n);
    var s := Place(n);
    assert s[1..] == Decimal(n);
    DigitRunAll(Decimal(n));
    assert s[PlaceLength(s)..] == [];
    assert s[1..PlaceLength(s)] == Decimal(n);
    assert forall i | 1 <= i < |s| :: s[i] == Decimal(n)[i - 1];
  }

  lemma {:induction false} MoreArguments(s: string, args: seq<Value>, v: Value)
    requires forall j | 0 <= j < |Numbers(s)| :: 1 <= Numbers(s)[j] <= |args|
    ensures BindNumbered(s, args + [v]) == BindNumbered(s, args)
    decreases |s|
  {
    if s != [] {
      if AtPlace(s) {
        assert Numbers(s)[0] == ParseDecimal(s[1..PlaceLength(s)]);
        assert forall j | 0 <= j < |Numbers(s[PlaceLength(s)..])| ::
            Numbers(s[PlaceLength(s)..])[j] == Numbers(s)[j + 1];
        MoreArguments(s[PlaceLength(s)..], args, v);
      } else {
        MoreArguments(s[1..], args, v);
      }
    }
  }

  /** The query text holds `$1..$n` in left-to-right order, each once, for its n arguments, and means `pieces`. */
  ghost predicate Built(text: string, args: seq<Value>, pieces: seq<Piece>) {
    && '?' !in text
    && |Numbers(text)| == |args| && (forall j | 0 <= j < |args| :: Numbers(text)[j] == j + 1)
    && BindNumbered(text, args) == pieces
  }

  lemma BuiltStart(s: string)
    requires Plain(s)
    ensures Built(s, [], TextOf(s))
  {
    PlainBinds(s, []);
  }

  lemma BuiltText(text: string, args: seq<Value>, pieces: seq<Piece>, s: string)
    requires Built(text, args, pieces) && Plain(s)
    ensures Built(text + s, args, pieces + TextOf(s))
  {
    Append(text, s, args);
    PlainBinds(s, args);
  }

  lemma BuiltPlace(text: string, args: seq<Value>, pieces: seq<Piece>, v: Value)
    requires Built(text, args, pieces)
    ensures Built(text + Place(|args| + 1), args + [v], pieces + [Bound(v)])
  {
    var n := |args| + 1;
    PlaceBinds(n, args + [v]);
    Append(text, Place(n), args + [v]);
    MoreArguments(text, args, v);
  }

  /** A built query means the same to both engines. */
  lemma BuiltMeans(text: string, args: seq<Value>, pieces: seq<Piece>, sqlite: bool)
    requires Built(text, args, pieces)
    ensures (if sqlite then BindPositional(Q(true, text), args, 0) else BindNumbered(Q(false, text), args)) == pieces
  {
    RewritePreservesIff(text, args);
  }
}
