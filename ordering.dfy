/** Ordering of bookings by start instant: the model of a repository `ORDER BY start`
    and of a stream `sorted` on the start instant (both stable here). */
module Ordering {
  import opened Domain

  datatype Direction = Ascending | Descending

  predicate InOrder(d: Direction, a: Booking, b: Booking) {
    match d
    case Ascending => a.start <= b.start
    case Descending => a.start >= b.start
  }

  predicate SortedBy(d: Direction, s: seq<Booking>) {
    forall i, j :: 0 <= i < j < |s| ==> InOrder(d, s[i], s[j])
  }

  /** Inserts `x` before the first element it may precede, so that `x` stays ahead
      of the elements with the same start that follow it in the input. */
  function Insert(d: Direction, x: Booking, s: seq<Booking>): (r: seq<Booking>)
    requires SortedBy(d, s)
    ensures SortedBy(d, r)
    ensures multiset(r) == multiset(s) + multiset{x}
  {
    if s == [] then [x]
    else if InOrder(d, x, s[0]) then [x] + s
    else
      var t := Insert(d, x, s[1..]);
      assert s == [s[0]] + s[1..];
      assert forall k :: 0 <= k < |t| ==> InOrder(d, s[0], t[k]) by {
        forall k | 0 <= k < |t| ensures InOrder(d, s[0], t[k]) {
          assert t[k] in multiset(t);
          if t[k] != x {
            assert t[k] in multiset(s[1..]);
            var m :| 0 <= m < |s[1..]| && s[1..][m] == t[k];
            assert s[m + 1] == t[k];
          }
        }
      }
      [s[0]] + t
  }

  /** Insertion sort: a sorted permutation of the input. */
  function Sort(d: Direction, s: seq<Booking>): (r: seq<Booking>)
    ensures SortedBy(d, r)
    ensures multiset(r) == multiset(s)
    ensures |r| == |s|
  {
    if s == [] then []
    else
      assert s == [s[0]] + s[1..];
      Insert(d, s[0], Sort(d, s[1..]))
  }

  /** The first element of a sorted sequence is the extreme one. */
  lemma HeadIsExtreme(d: Direction, s: seq<Booking>)
    requires SortedBy(d, s) && |s| > 0
    ensures forall b :: b in s ==> InOrder(d, s[0], b)
  {
    forall b | b in s ensures InOrder(d, s[0], b) {
      var k :| 0 <= k < |s| && s[k] == b;
      if k > 0 {
        assert InOrder(d, s[0], s[k]);
      }
    }
  }

  /** No two elements share a start instant. */
  predicate DistinctStarts(s: seq<Booking>) {
    forall i, j :: 0 <= i < j < |s| ==> s[i].start != s[j].start
  }

  /** With distinct starts there is only one sorted arrangement of a multiset, so
      any store that sorts by start returns exactly the sequence `Sort` gives. */
  lemma {:induction false} SortedUnique(d: Direction, a: seq<Booking>, b: seq<Booking>)
    requires SortedBy(d, a) && SortedBy(d, b) && multiset(a) == multiset(b) && DistinctStarts(a)
    ensures a == b
    decreases |a|
  {
    assert |a| == |multiset(a)| == |multiset(b)| == |b|;
    if a != [] {
      SameHead(d, a, b);
      SameTail(a, b);
      assert SortedBy(d, a[1..]) && SortedBy(d, b[1..]) && DistinctStarts(a[1..]);
      SortedUnique(d, a[1..], b[1..]);
    }
  }

  lemma SameHead(d: Direction, a: seq<Booking>, b: seq<Booking>)
    requires SortedBy(d, a) && SortedBy(d, b) && multiset(a) == multiset(b) && DistinctStarts(a)
    requires |a| > 0 && |b| > 0
    ensures a[0] == b[0]
  {
    assert a[0] in multiset(b) && b[0] in multiset(a);
    HeadIsExtreme(d, a);
    HeadIsExtreme(d, b);
    var k :| 0 <= k < |a| && a[k] == b[0];
    assert a[0].start == a[k].start;
  }

  lemma SameTail(a: seq<Booking>, b: seq<Booking>)
    requires multiset(a) == multiset(b) && |a| > 0 && |b| > 0 && a[0] == b[0]
    ensures multiset(a[1..]) == multiset(b[1..])
  {
    assert a == [a[0]] + a[1..] && b == [b[0]] + b[1..];
    assert multiset(a) == multiset{a[0]} + multiset(a[1..]);
    assert multiset(b) == multiset{b[0]} + multiset(b[1..]);
    assert multiset(a[1..]) == multiset(a) - multiset{a[0]};
    assert multiset(b[1..]) == multiset(b) - multiset{b[0]};
  }
}
