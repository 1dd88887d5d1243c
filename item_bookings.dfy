/** The "last" and "next" booking of an item at instant `now`, in the two variants
    the item service has: a store-backed one that inspects only the head of an
    ordered query, and a list-based one that drops CANCELED/REJECTED bookings
    after sorting a pre-fetched list. */
module ItemBookings {
  import opened Domain
  import opened Seqs
  import opened Ordering

  function OfItem(itemId: int): Booking -> bool { (b: Booking) => b.itemId == itemId }
  function StartsBefore(now: int): Booking -> bool { (b: Booking) => b.start < now }
  function StartsAfter(now: int): Booking -> bool { (b: Booking) => b.start > now }
  function OfItemStartsBefore(itemId: int, now: int): Booking -> bool { (b: Booking) => b.itemId == itemId && b.start < now }
  function OfItemStartsAfter(itemId: int, now: int): Booking -> bool { (b: Booking) => b.itemId == itemId && b.start > now }

  /** The head of a query result, unless its status is excluded. */
  function Head(c: seq<Booking>): (r: Option<Booking>)
    ensures r.Some? <==> |c| > 0 && !Excluded(c[0].status)
    ensures r.Some? ==> r.value == c[0]
  {
    if c == [] then None else if Excluded(c[0].status) then None else Some(c[0])
  }

  /** The first element whose status is not excluded. */
  function FirstAdmitted(s: seq<Booking>): (r: Option<Booking>)
    ensures r.Some? ==> r.value in s && !Excluded(r.value.status)
    ensures r.Some? ==> exists k :: 0 <= k < |s| && s[k] == r.value &&
                                    forall j :: 0 <= j < k ==> Excluded(s[j].status)
    ensures r.None? <==> forall b :: b in s ==> Excluded(b.status)
  {
    if s == [] then None
    else if !Excluded(s[0].status) then Some(s[0])
    else
      var t := FirstAdmitted(s[1..]);
      if t.Some? then
        var k :| 0 <= k < |s[1..]| && s[1..][k] == t.value &&
                 forall j :: 0 <= j < k ==> Excluded(s[1..][j].status);
        assert s[k + 1] == t.value;
        assert forall j :: 0 <= j < k + 1 ==> Excluded(s[j].status) by {
          forall j | 0 <= j < k + 1 ensures Excluded(s[j].status) {
            if j > 0 { assert s[j] == s[1..][j - 1]; }
          }
        }
        t
      else t
  }

  /** In a sorted sequence the first admitted element is extreme among the admitted ones. */
  lemma {:induction false} FirstAdmittedIsExtreme(d: Direction, s: seq<Booking>)
    requires SortedBy(d, s)
    ensures FirstAdmitted(s).Some? ==>
              forall b :: b in s && !Excluded(b.status) ==> InOrder(d, FirstAdmitted(s).value, b)
  {
    if s != [] {
      if !Excluded(s[0].status) {
        HeadIsExtreme(d, s);
      } else {
        assert SortedBy(d, s[1..]);
        FirstAdmittedIsExtreme(d, s[1..]);
        forall b | b in s && !Excluded(b.status) ensures b in s[1..] {
          assert b != s[0];
        }
      }
    }
  }

  // ---- store-backed variants ----------------------------------------------

  /** `findAllByItem_IdAndStartIsBeforeOrderByStartDesc`. */
  function PastStartsOf(rows: seq<Booking>, itemId: int, now: int): (c: seq<Booking>)
    ensures SortedBy(Descending, c)
    ensures multiset(c) == multiset(Filter(rows, OfItemStartsBefore(itemId, now)))
    ensures forall b :: b in c <==> b in rows && b.itemId == itemId && b.start < now
  {
    var f := Filter(rows, OfItemStartsBefore(itemId, now));
    var c := Sort(Descending, f);
    assert forall b :: b in c <==> b in multiset(f);
    c
  }

  /** `findAllByItem_idAndStartIsAfterOrderByStartAsc`. */
  function FutureStartsOf(rows: seq<Booking>, itemId: int, now: int): (c: seq<Booking>)
    ensures SortedBy(Ascending, c)
    ensures multiset(c) == multiset(Filter(rows, OfItemStartsAfter(itemId, now)))
    ensures forall b :: b in c <==> b in rows && b.itemId == itemId && b.start > now
  {
    var f := Filter(rows, OfItemStartsAfter(itemId, now));
    var c := Sort(Ascending, f);
    assert forall b :: b in c <==> b in multiset(f);
    c
  }

  /** Store-backed `findLastBooking`: the booking of the item with the latest start
      before `now`, or none when that booking is CANCELED or REJECTED (no fall-back
      to an earlier one). */
  function StoreLast(rows: seq<Booking>, itemId: int, now: int): (r: Option<Booking>)
    ensures r.Some? ==> r.value in rows && r.value.itemId == itemId && r.value.start < now
                        && !Excluded(r.value.status)
    ensures r.Some? ==> forall b :: b in rows && b.itemId == itemId && b.start < now ==>
                                    b.start <= r.value.start
    ensures r.None? && (exists b :: b in rows && b.itemId == itemId && b.start < now) ==>
              exists b :: b in rows && b.itemId == itemId && b.start < now && Excluded(b.status) &&
                          forall b' :: b' in rows && b'.itemId == itemId && b'.start < now ==> b'.start <= b.start
  {
    var c := PastStartsOf(rows, itemId, now);
    if c == [] then None
    else
      HeadIsExtreme(Descending, c);
      Head(c)
  }

  /** Store-backed `findNextBooking`: the booking of the item with the earliest start
      after `now`, or none when that booking is CANCELED or REJECTED. */
  function StoreNext(rows: seq<Booking>, itemId: int, now: int): (r: Option<Booking>)
    ensures r.Some? ==> r.value in rows && r.value.itemId == itemId && r.value.start > now
                        && !Excluded(r.value.status)
    ensures r.Some? ==> forall b :: b in rows && b.itemId == itemId && b.start > now ==>
                                    r.value.start <= b.start
    ensures r.None? && (exists b :: b in rows && b.itemId == itemId && b.start > now) ==>
              exists b :: b in rows && b.itemId == itemId && b.start > now && Excluded(b.status) &&
                          forall b' :: b' in rows && b'.itemId == itemId && b'.start > now ==> b.start <= b'.start
  {
    var c := FutureStartsOf(rows, itemId, now);
    if c == [] then None
    else
      HeadIsExtreme(Ascending, c);
      Head(c)
  }

  // ---- list-based variants --------------------------------------------------

  /** List-based `findLastBooking`: filter by start before `now`, sort by start
      descending, drop CANCELED/REJECTED, take the first. */
  function ListLast(bookings: seq<Booking>, now: int): (r: Option<Booking>)
    ensures r.Some? ==> r.value in bookings && r.value.start < now && !Excluded(r.value.status)
    ensures r.Some? ==> forall b :: b in bookings && b.start < now && !Excluded(b.status) ==>
                                    b.start <= r.value.start
    ensures r.None? <==> forall b :: b in bookings && b.start < now ==> Excluded(b.status)
  {
    var f := Filter(bookings, StartsBefore(now));
    var c := Sort(Descending, f);
    assert forall b :: b in c <==> b in multiset(f);
    FirstAdmittedIsExtreme(Descending, c);
    FirstAdmitted(c)
  }

  /** List-based `findNextBooking`: filter by start after `now`, sort by start
      ascending, drop CANCELED/REJECTED, take the first. */
  function ListNext(bookings: seq<Booking>, now: int): (r: Option<Booking>)
    ensures r.Some? ==> r.value in bookings && r.value.start > now && !Excluded(r.value.status)
    ensures r.Some? ==> forall b :: b in bookings && b.start > now && !Excluded(b.status) ==>
                                    r.value.start <= b.start
    ensures r.None? <==> forall b :: b in bookings && b.start > now ==> Excluded(b.status)
  {
    var f := Filter(bookings, StartsAfter(now));
    var c := Sort(Ascending, f);
    assert forall b :: b in c <==> b in multiset(f);
    FirstAdmittedIsExtreme(Ascending, c);
    FirstAdmitted(c)
  }

  // ---- where the two variants agree -------------------------------------------

  /** In the store order, the list-based helper applied to the item's bookings sorts
      the very sequence the store-backed query returns. */
  lemma SameLastCandidates(rows: seq<Booking>, itemId: int, now: int)
    ensures Sort(Descending, Filter(Filter(rows, OfItem(itemId)), StartsBefore(now)))
         == PastStartsOf(rows, itemId, now)
  {
    FilterFilter(rows, OfItem(itemId), StartsBefore(now), OfItemStartsBefore(itemId, now));
  }

  lemma SameNextCandidates(rows: seq<Booking>, itemId: int, now: int)
    ensures Sort(Ascending, Filter(Filter(rows, OfItem(itemId)), StartsAfter(now)))
         == FutureStartsOf(rows, itemId, now)
  {
    FilterFilter(rows, OfItem(itemId), StartsAfter(now), OfItemStartsAfter(itemId, now));
  }

  /** With both variants seeing the store order: they differ exactly when the latest
      candidate is CANCELED or REJECTED while some other candidate is not; whenever
      the store-backed one reports a booking, the list-based one reports the same.
      `LastVariantsAgreeAnyOrder` carries this over to any order the database uses. */
  lemma LastVariantsAgree(rows: seq<Booking>, itemId: int, now: int)
    ensures StoreLast(rows, itemId, now).Some? ==>
              ListLast(Filter(rows, OfItem(itemId)), now) == StoreLast(rows, itemId, now)
    ensures var c := PastStartsOf(rows, itemId, now);
            StoreLast(rows, itemId, now) != ListLast(Filter(rows, OfItem(itemId)), now)
            <==> |c| > 0 && Excluded(c[0].status) && exists b :: b in c && !Excluded(b.status)
  {
    SameLastCandidates(rows, itemId, now);
    var c := PastStartsOf(rows, itemId, now);
    if c != [] && Excluded(c[0].status) {
      assert FirstAdmitted(c) == FirstAdmitted(c[1..]);
      assert forall b :: b in c && !Excluded(b.status) ==> b in c[1..];
    }
  }

  /** The same for `findNextBooking`, with the earliest candidate. */
  lemma NextVariantsAgree(rows: seq<Booking>, itemId: int, now: int)
    ensures StoreNext(rows, itemId, now).Some? ==>
              ListNext(Filter(rows, OfItem(itemId)), now) == StoreNext(rows, itemId, now)
    ensures var c := FutureStartsOf(rows, itemId, now);
            StoreNext(rows, itemId, now) != ListNext(Filter(rows, OfItem(itemId)), now)
            <==> |c| > 0 && Excluded(c[0].status) && exists b :: b in c && !Excluded(b.status)
  {
    SameNextCandidates(rows, itemId, now);
    var c := FutureStartsOf(rows, itemId, now);
    if c != [] && Excluded(c[0].status) {
      assert FirstAdmitted(c) == FirstAdmitted(c[1..]);
      assert forall b :: b in c && !Excluded(b.status) ==> b in c[1..];
    }
  }

  /** The two `findLastBooking` variants as the program runs them, where the database
      may order rows with equal starts either way: `q` is any start-descending
      arrangement of the item's started bookings (the store query) and `p` any
      arrangement of the item's bookings (the pre-fetch, which has no ordering). When
      the started bookings have pairwise distinct starts, both see the model's
      candidates, so they agree and differ exactly as `LastVariantsAgree` states. */
  lemma LastVariantsAgreeAnyOrder(rows: seq<Booking>, itemId: int, now: int, q: seq<Booking>, p: seq<Booking>)
    requires SortedBy(Descending, q) && DistinctStarts(q)
    requires multiset(q) == multiset(Filter(rows, OfItemStartsBefore(itemId, now)))
    requires multiset(p) == multiset(Filter(rows, OfItem(itemId)))
    ensures Head(q) == StoreLast(rows, itemId, now)
    ensures ListLast(p, now) == ListLast(Filter(rows, OfItem(itemId)), now)
    ensures Head(q).Some? ==> ListLast(p, now) == Head(q)
    ensures Head(q) != ListLast(p, now) <==>
              |q| > 0 && Excluded(q[0].status) && exists b :: b in q && !Excluded(b.status)
  {
    var c := PastStartsOf(rows, itemId, now);
    SortedUnique(Descending, q, c);
    var s := Sort(Descending, Filter(p, StartsBefore(now)));
    FilterRespectsMultiset(p, Filter(rows, OfItem(itemId)), StartsBefore(now));
    SameLastCandidates(rows, itemId, now);
    SortedUnique(Descending, c, s);
    LastVariantsAgree(rows, itemId, now);
  }

  /** The same for `findNextBooking`: `q` is any start-ascending arrangement of the
      item's future bookings. */
  lemma NextVariantsAgreeAnyOrder(rows: seq<Booking>, itemId: int, now: int, q: seq<Booking>, p: seq<Booking>)
    requires SortedBy(Ascending, q) && DistinctStarts(q)
    requires multiset(q) == multiset(Filter(rows, OfItemStartsAfter(itemId, now)))
    requires multiset(p) == multiset(Filter(rows, OfItem(itemId)))
    ensures Head(q) == StoreNext(rows, itemId, now)
    ensures ListNext(p, now) == ListNext(Filter(rows, OfItem(itemId)), now)
    ensures Head(q).Some? ==> ListNext(p, now) == Head(q)
    ensures Head(q) != ListNext(p, now) <==>
              |q| > 0 && Excluded(q[0].status) && exists b :: b in q && !Excluded(b.status)
  {
    var c := FutureStartsOf(rows, itemId, now);
    SortedUnique(Ascending, q, c);
    var s := Sort(Ascending, Filter(p, StartsAfter(now)));
    FilterRespectsMultiset(p, Filter(rows, OfItem(itemId)), StartsAfter(now));
    SameNextCandidates(rows, itemId, now);
    SortedUnique(Ascending, c, s);
    NextVariantsAgree(rows, itemId, now);
  }

  /** When the item's latest started booking is excluded, the store-backed helper
      reports nothing, whatever the earlier bookings are. */
  lemma LatestExcludedHidesLast(rows: seq<Booking>, itemId: int, now: int, latest: Booking)
    requires latest in rows && latest.itemId == itemId && latest.start < now && Excluded(latest.status)
    requires forall b :: b in rows && b.itemId == itemId && b.start < now && b != latest ==> b.start < latest.start
    ensures StoreLast(rows, itemId, now) == None
  {
  }

  /** When exactly one started booking is admitted, the list-based helper reports it. */
  lemma OnlyAdmittedIsLast(bookings: seq<Booking>, now: int, only: Booking)
    requires only in bookings && only.start < now && !Excluded(only.status)
    requires forall b :: b in bookings && b.start < now && !Excluded(b.status) ==> b == only
    ensures ListLast(bookings, now) == Some(only)
  {
  }

  /** An item with an APPROVED booking that started before a REJECTED one, both
      before `now`: the store-backed helper reports no last booking, the list-based
      one reports the APPROVED booking. */
  lemma RejectedLatestHidesLast(older: Booking, newer: Booking, now: int)
    requires older.itemId == newer.itemId
    requires older.start < newer.start < now
    requires older.status == Approved && newer.status == Rejected
    ensures StoreLast([older, newer], older.itemId, now) == None
    ensures ListLast(Filter([older, newer], OfItem(older.itemId)), now) == Some(older)
  {
    var rows := [older, newer];
    assert forall b :: b in rows ==> b == older || b == newer;
    LatestExcludedHidesLast(rows, older.itemId, now, newer);
    var own := Filter(rows, OfItem(older.itemId));
    assert older in own;
    OnlyAdmittedIsLast(own, now, older);
  }
}
