/** Sequences without repetition, as listings of sets, and the sizes that go with them. */
module Collections {
  function Least(a: int, b: int): (r: int)
    ensures r <= a && r <= b && (r == a || r == b)
  {
    if a <= b then a else b
  }

  function Elements<T>(s: seq<T>): set<T> {
    set x | x in s
  }

  ghost predicate Distinct<T>(s: seq<T>) {
    forall i, j | 0 <= i < j < |s| :: s[i] != s[j]
  }

  lemma {:induction false} ElementsAtMost<T>(s: seq<T>)
    ensures |Elements(s)| <= |s|
  {
    if s != [] {
      var n := |s| - 1;
      assert Elements(s) == Elements(s[..n]) + {s[n]};
      ElementsAtMost(s[..n]);
    }
  }

  /** A list has as many positions as elements exactly when it repeats none. */
  lemma {:induction false} DistinctIff<T>(s: seq<T>)
    ensures Distinct(s) <==> |Elements(s)| == |s|
  {
    if s != [] {
      var n := |s| - 1;
      DistinctIff(s[..n]);
      ElementsAtMost(s[..n]);
      assert Elements(s) == Elements(s[..n]) + {s[n]};
      assert s == s[..n] + [s[n]];
      if s[n] in s[..n] {
        var i :| 0 <= i < n && s[i] == s[n];
        assert !Distinct(s);
      } else {
        assert Distinct(s) <==> Distinct(s[..n]);
      }
    }
  }

  /** Each element once, in some order. */
  method ListOf<T(==)>(a: set<T>) returns (s: seq<T>)
    ensures Elements(s) == a && Distinct(s) && |s| == |a|
  {
    s := [];
    var rest := a;
    while rest != {}
      invariant Elements(s) + rest == a && Elements(s) !! rest && |s| + |rest| == |a| && Distinct(s)
    {
      var x :| x in rest;
      assert Elements(s + [x]) == Elements(s) + {x};
      s := s + [x];
      rest := rest - {x};
    }
  }

  lemma {:induction false} AListing<T>(a: set<T>) returns (s: seq<T>)
    ensures Elements(s) == a && Distinct(s) && |s| == |a|
    decreases a
  {
    if a == {} {
      s := [];
    } else {
      var x :| x in a;
      var rest := AListing(a - {x});
      s := [x] + rest;
      assert Elements(s) == {x} + Elements(rest);
    }
  }

  lemma {:induction false} SubsetSize<T>(a: set<T>, b: set<T>)
    requires a <= b
    ensures |a| <= |b| && (|a| == |b| ==> a == b)
    decreases a
  {
    if a != {} {
      var x :| x in a;
      SubsetSize(a - {x}, b - {x});
      assert a == (a - {x}) + {x} && b == (b - {x}) + {x};
    } else if |b| == 0 {
      assert b == {};
    }
  }
}
