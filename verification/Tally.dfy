/** Counting maps over sequences of optional labels, as Go's `m[label]++` fills them. */
module Tally {
  import opened Wrappers

  ghost function Marked<L(!new)>(labels: seq<Option<L>>): set<int> {
    set i | 0 <= i < |labels| && labels[i].Some?
  }

  ghost function Holding<L(!new)>(labels: seq<Option<L>>, l: L): set<int> {
    set i | 0 <= i < |labels| && labels[i] == Some(l)
  }

  /** How many positions carry the label `l`. */
  ghost function Times<L(!new)>(labels: seq<Option<L>>, l: L): nat {
    |Holding(labels, l)|
  }

  /** The map counts every label that occurs, and nothing else. */
  ghost predicate Counts<L(!new)>(m: map<L, nat>, labels: seq<Option<L>>) {
    && (forall l :: l in m <==> Some(l) in labels)
    && (forall l :: l in m ==> m[l] == Times(labels, l))
  }

  function Bump<L(==)>(m: map<L, nat>, x: Option<L>): map<L, nat> {
    match x
    case None => m
    case Some(l) => m[l := (if l in m then m[l] else 0) + 1]
  }

  lemma NoCounts<L(!new)>()
    ensures Counts<L>(map[], []) && |Marked<L>([])| == 0
  {
  }

  lemma TimesStep<L(!new)>(labels: seq<Option<L>>, x: Option<L>, l: L)
    ensures Times(labels + [x], l) == Times(labels, l) + if x == Some(l) then 1 else 0
  {
    var more := labels + [x];
    if x == Some(l) {
      assert Holding(more, l) == Holding(labels, l) + {|labels|};
    } else {
      assert Holding(more, l) == Holding(labels, l);
    }
  }

  lemma MarkedStep<L(!new)>(labels: seq<Option<L>>, x: Option<L>)
    ensures |Marked(labels + [x])| == |Marked(labels)| + if x.Some? then 1 else 0
  {
    var more := labels + [x];
    if x.Some? {
      assert Marked(more) == Marked(labels) + {|labels|};
    } else {
      assert Marked(more) == Marked(labels);
    }
  }

  lemma TimesNever<L(!new)>(labels: seq<Option<L>>, l: L)
    ensures Times(labels, l) == 0 <==> Some(l) !in labels
  {
    if Some(l) in labels {
      var i :| 0 <= i < |labels| && labels[i] == Some(l);
      assert i in Holding(labels, l);
    } else {
      assert Holding(labels, l) == {};
    }
  }

  lemma BumpCounts<L(!new)>(m: map<L, nat>, labels: seq<Option<L>>, x: Option<L>)
    requires Counts(m, labels)
    ensures Counts(Bump(m, x), labels + [x])
  {
    hide Times;
    var more := labels + [x];
    forall l ensures (l in Bump(m, x) <==> Some(l) in more) && (l in Bump(m, x) ==> Bump(m, x)[l] == Times(more, l)) {
      TimesStep(labels, x, l);
      TimesNever(labels, l);
    }
  }

  /** Positions with the same marks are equally many, whatever the labels are called. */
  lemma SameMarks<L(!new), M(!new)>(a: seq<Option<L>>, b: seq<Option<M>>)
    requires |a| == |b| && forall i | 0 <= i < |a| :: a[i].Some? <==> b[i].Some?
    ensures |Marked(a)| == |Marked(b)|
  {
    assert Marked(a) == Marked(b);
  }

  // ------------------------------------------------------------------- sums

  ghost function SumOf<L(!new)>(m: map<L, nat>): nat
    decreases |m|
  {
    if m == map[] then 0
    else
      var l :| l in m;
      m[l] + SumOf(m - {l})
  }

  /** Whichever key is taken first. */
  lemma {:induction false} SumWithout<L(!new)>(m: map<L, nat>, l: L)
    requires l in m
    ensures SumOf(m) == m[l] + SumOf(m - {l})
    decreases |m|
  {
    assert m != map[];
    var first :| first in m && SumOf(m) == m[first] + SumOf(m - {first});
    if first != l {
      SumWithout(m - {first}, l);
      SumWithout(m - {l}, first);
      assert m - {first} - {l} == m - {l} - {first};
    }
  }

  /** The same labels with `l` taken away. */
  ghost function Unmark<L(!new)>(labels: seq<Option<L>>, l: L): (r: seq<Option<L>>)
    ensures |r| == |labels| && forall i | 0 <= i < |r| :: r[i] == if labels[i] == Some(l) then None else labels[i]
  {
    seq(|labels|, i requires 0 <= i < |labels| => if labels[i] == Some(l) then None else labels[i])
  }

  lemma UnmarkMarked<L(!new)>(labels: seq<Option<L>>, l: L)
    ensures |Marked(labels)| == Times(labels, l) + |Marked(Unmark(labels, l))|
  {
    assert Marked(labels) == Holding(labels, l) + Marked(Unmark(labels, l));
  }

  lemma UnmarkTimes<L(!new)>(labels: seq<Option<L>>, l: L, x: L)
    requires x != l
    ensures Times(Unmark(labels, l), x) == Times(labels, x)
  {
    assert Holding(Unmark(labels, l), x) == Holding(labels, x);
  }

  lemma UnmarkCounts<L(!new)>(m: map<L, nat>, labels: seq<Option<L>>, l: L)
    requires Counts(m, labels) && l in m
    ensures Counts(m - {l}, Unmark(labels, l))
    ensures |Marked(labels)| == m[l] + |Marked(Unmark(labels, l))|
  {
    hide Times, Marked, Unmark;
    UnmarkMarked(labels, l);
    var rest := Unmark(labels, l);
    forall x ensures x in m - {l} <==> Some(x) in rest {
      TimesNever(labels, x);
      TimesNever(rest, x);
      if x != l { UnmarkTimes(labels, l, x); }
      assert Some(l) !in rest;
    }
    forall x | x in m - {l} ensures (m - {l})[x] == Times(rest, x) { UnmarkTimes(labels, l, x); }
  }

  /** The counts add up to the number of positions that carry a label. */
  lemma {:induction false} SumIsMarked<L(!new)>(m: map<L, nat>, labels: seq<Option<L>>)
    requires Counts(m, labels)
    ensures SumOf(m) == |Marked(labels)|
    decreases |m|
  {
    if m == map[] {
      forall i | 0 <= i < |labels| ensures labels[i].None? {
        assert labels[i] in labels;
      }
      assert Marked(labels) == {};
    } else {
      var l :| l in m;
      SumWithout(m, l);
      UnmarkCounts(m, labels, l);
      SumIsMarked(m - {l}, Unmark(labels, l));
    }
  }
}
