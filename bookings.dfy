/** The booking lifecycle: creation with its ordered validation chain, the single
    approve/reject transition, and the single-booking view. The store keeps booking
    `i` at position `i`; users and items are the directories the service looks up,
    the item with identifier `i` being found at position `i` of `items`. */
module Bookings {
  import opened Domain
  import Checks
  import BookingQueries

  /** Row `i` holds the booking with identifier `i`. */
  predicate Indexed(rows: seq<Booking>) {
    forall i :: 0 <= i < |rows| ==> rows[i].id == i
  }

  /** What creation guarantees of every stored booking. */
  predicate WellFormed(rows: seq<Booking>) {
    Indexed(rows) && forall i :: 0 <= i < |rows| ==> rows[i].start < rows[i].end
  }

  // ---- add ---------------------------------------------------------------------

  /** The first two checks of `add`: the interval itself. */
  function IntervalCheck(start: int, end: int): (e: Option<Error>)
    ensures e.None? <==> start < end
    ensures start > end ==> e == Some(Validation(EndBeforeStart))
    ensures start == end ==> e == Some(Validation(EndEqualsStart))
  {
    if start > end then Some(Validation(EndBeforeStart))
    else if start == end then Some(Validation(EndEqualsStart))
    else None
  }

  /** The next two checks of `add`: neither end of the interval lies before `now`. */
  function BackdateCheck(start: int, end: int, now: int): (e: Option<Error>)
    ensures e.None? <==> now <= start && now <= end
    ensures e.Some? ==> e == Some(Validation(Backdated))
  {
    if start < now then Some(Validation(Backdated))
    else if end < now then Some(Validation(Backdated))
    else None
  }

  /** `add`: booker lookup, item lookup, interval, backdating, availability,
      self-booking; on success a WAITING booking with the next identifier. */
  function AddOutcome(rows: seq<Booking>, users: set<int>, items: seq<Item>, itemId: int,
                      userId: int, start: int, end: int, now: int): (r: Result<Booking>)
    ensures r.Ok? <==> userId in users && 0 <= itemId < |items| && start < end
                       && now <= start && now <= end
                       && items[itemId].available && items[itemId].ownerId != userId
    ensures userId !in users ==> r == Err(NotFound(UserEntity))
    ensures userId in users && !(0 <= itemId < |items|) ==> r == Err(NotFound(ItemEntity))
    // the interval checks come before any comparison with `now`
    ensures userId in users && 0 <= itemId < |items| && start > end ==>
              r == Err(Validation(EndBeforeStart))
    ensures userId in users && 0 <= itemId < |items| && start == end ==>
              r == Err(Validation(EndEqualsStart))
    ensures userId in users && 0 <= itemId < |items| && start < end && (start < now || end < now) ==>
              r == Err(Validation(Backdated))
    // availability is checked before ownership
    ensures (userId in users && 0 <= itemId < |items| && start < end && now <= start && now <= end
             && !items[itemId].available) ==> r == Err(Validation(ItemUnavailable))
    ensures (userId in users && 0 <= itemId < |items| && start < end && now <= start && now <= end
             && items[itemId].available && items[itemId].ownerId == userId) ==> r == Err(AccessDenied)
    ensures r.Ok? ==> r.value == Booking(|rows|, itemId, items[itemId].ownerId, userId,
                                         start, end, Waiting)
  {
    if userId !in users then Err(NotFound(UserEntity))
    else if !(0 <= itemId < |items|) then Err(NotFound(ItemEntity))
    else
      var item := items[itemId];
      match IntervalCheck(start, end)
      case Some(e) => Err(e)
      case None =>
        match BackdateCheck(start, end, now)
        case Some(e) => Err(e)
        case None =>
          if !item.available then Err(Validation(ItemUnavailable))
          else if item.ownerId == userId then Err(AccessDenied)
          else Ok(Booking(|rows|, itemId, item.ownerId, userId, start, end, Waiting))
  }

  /** The gateway's interval check accepts exactly the intervals that pass the
      server's first two checks of `add`. */
  lemma GatewayIntervalMatchesServer(start: int, end: int)
    ensures Checks.DateTime(start, end).Pass? <==> IntervalCheck(start, end).None?
    ensures Checks.DateTime(start, end).Fail? ==>
              IntervalCheck(start, end) == Some(Validation(if start > end then EndBeforeStart else EndEqualsStart))
  {
  }

  /** The gateway's pagination check refuses exactly what the server's listing
      refuses as negative pagination. */
  lemma GatewayPageParamsMatchServer(rows: seq<Booking>, users: set<int>, from: int, size: int,
                                     token: string, role: BookingQueries.Role, subjectId: int, now: int)
    ensures Checks.PageParams(from, size).Fail?
            <==> BookingQueries.Listing(rows, users, from, size, token, role, subjectId, now)
                 == Err(Validation(NegativePagination))
  {
  }

  // ---- approve -------------------------------------------------------------------

  /** The status an owner's decision sets. */
  function Decided(b: Booking, isApproved: bool): (d: Booking)
    ensures d.status == (if isApproved then Approved else Rejected)
    ensures d.(status := b.status) == b
  {
    b.(status := if isApproved then Approved else Rejected)
  }

  /** `approve`: unknown identifier, then "already APPROVED" (for any caller), then
      the owner check; on success the decided booking. Only APPROVED blocks a new
      decision, so a REJECTED (or CANCELED) booking can be decided again. */
  function ApproveOutcome(rows: seq<Booking>, id: int, isApproved: bool, userId: int): (r: Result<Booking>)
    ensures r.Ok? <==> 0 <= id < |rows| && rows[id].status != Approved && userId == rows[id].ownerId
    ensures !(0 <= id < |rows|) ==> r == Err(NotFound(BookingEntity))
    ensures 0 <= id < |rows| && rows[id].status == Approved ==> r == Err(Validation(AlreadyApproved))
    ensures 0 <= id < |rows| && rows[id].status != Approved && userId != rows[id].ownerId ==>
              r == Err(AccessDenied)
    ensures r.Ok? ==> r.value == Decided(rows[id], isApproved)
  {
    if !(0 <= id < |rows|) then Err(NotFound(BookingEntity))
    else if rows[id].status == Approved then Err(Validation(AlreadyApproved))
    else if userId == rows[id].ownerId then Ok(Decided(rows[id], isApproved))
    else Err(AccessDenied)
  }

  // ---- getById -------------------------------------------------------------------

  /** `getById`: visible to the item's owner and to the booker only. */
  function GetById(rows: seq<Booking>, id: int, userId: int): (r: Result<Booking>)
    ensures r.Ok? <==> 0 <= id < |rows| && (userId == rows[id].ownerId || userId == rows[id].bookerId)
    ensures r.Ok? ==> r.value == rows[id]
    ensures !(0 <= id < |rows|) ==> r == Err(NotFound(BookingEntity))
    ensures 0 <= id < |rows| && userId != rows[id].ownerId && userId != rows[id].bookerId ==>
              r == Err(AccessDenied)
  {
    if !(0 <= id < |rows|) then Err(NotFound(BookingEntity))
    else if userId == rows[id].ownerId || userId == rows[id].bookerId then Ok(rows[id])
    else Err(AccessDenied)
  }

  // ---- the store -----------------------------------------------------------------

  class BookingService {
    var rows: seq<Booking>

    ghost predicate Valid()
      reads this
    {
      WellFormed(rows)
    }

    constructor ()
      ensures Valid() && rows == []
    {
      rows := [];
    }

    /** Creates the booking after the ordered checks; nothing is stored on failure. */
    method Add(users: set<int>, items: seq<Item>, itemId: int, userId: int, start: int, end: int,
               now: int) returns (r: Result<Booking>)
      requires Valid()
      modifies this
      ensures Valid()
      ensures r == AddOutcome(old(rows), users, items, itemId, userId, start, end, now)
      ensures rows == if r.Ok? then old(rows) + [r.value] else old(rows)
    {
      if userId !in users {
        return Err(NotFound(UserEntity));
      }
      if !(0 <= itemId < |items|) {
        return Err(NotFound(ItemEntity));
      }
      var item := items[itemId];
      if start > end {
        return Err(Validation(EndBeforeStart));
      }
      if start == end {
        return Err(Validation(EndEqualsStart));
      }
      if start < now {
        return Err(Validation(Backdated));
      }
      if end < now {
        return Err(Validation(Backdated));
      }
      if !item.available {
        return Err(Validation(ItemUnavailable));
      }
      if item.ownerId == userId {
        return Err(AccessDenied);
      }
      var booking := Booking(|rows|, itemId, item.ownerId, userId, start, end, Waiting);
      rows := rows + [booking];
      r := Ok(booking);
    }

    /** Sets the status of one booking; on failure nothing changes. */
    method Approve(id: int, isApproved: bool, userId: int) returns (r: Result<Booking>)
      requires Valid()
      modifies this
      ensures Valid()
      ensures r == ApproveOutcome(old(rows), id, isApproved, userId)
      ensures rows == if r.Ok? then old(rows)[id := r.value] else old(rows)
    {
      if !(0 <= id < |rows|) {
        return Err(NotFound(BookingEntity));
      }
      var booking := rows[id];
      if booking.status == Approved {
        return Err(Validation(AlreadyApproved));
      }
      if userId == booking.ownerId {
        if isApproved {
          booking := booking.(status := Approved);
        } else {
          booking := booking.(status := Rejected);
        }
        rows := rows[id := booking];
        r := Ok(booking);
      } else {
        r := Err(AccessDenied);
      }
    }
  }

  // ---- sequences of calls ----------------------------------------------------------

  /** One call to the store's state-changing operations. A creation carries the user
      and item directories as they stand at that call, and the instant it reads. */
  datatype Request =
    | AddRequest(users: set<int>, items: seq<Item>, itemId: int, userId: int, start: int, end: int,
                 now: int)
    | ApproveRequest(id: int, isApproved: bool, userId: int)

  /** The rows after one call, as the two methods above leave them. */
  function Apply(rows: seq<Booking>, q: Request): seq<Booking> {
    match q
    case AddRequest(users, items, itemId, userId, start, end, now) =>
      var r := AddOutcome(rows, users, items, itemId, userId, start, end, now);
      if r.Ok? then rows + [r.value] else rows
    case ApproveRequest(id, isApproved, userId) =>
      var r := ApproveOutcome(rows, id, isApproved, userId);
      if r.Ok? then rows[id := r.value] else rows
  }

  function Replay(rows: seq<Booking>, qs: seq<Request>): seq<Booking>
    decreases |qs|
  {
    if qs == [] then rows else Replay(Apply(rows, qs[0]), qs[1..])
  }

  /** Bookings are never removed, and a call changes at most the status of a stored
      booking: identifier, item, owner, booker and interval stay as created. */
  predicate OnlyStatusesChanged(before: seq<Booking>, after: seq<Booking>) {
    |before| <= |after| &&
    forall i :: 0 <= i < |before| ==> after[i].(status := before[i].status) == before[i]
  }

  lemma {:induction false} ReplayOnlyChangesStatuses(rows: seq<Booking>, qs: seq<Request>)
    ensures OnlyStatusesChanged(rows, Replay(rows, qs))
    ensures WellFormed(rows) ==> WellFormed(Replay(rows, qs))
    decreases |qs|
  {
    if qs != [] {
      var next := Apply(rows, qs[0]);
      ReplayOnlyChangesStatuses(next, qs[1..]);
      var final := Replay(next, qs[1..]);
      assert OnlyStatusesChanged(rows, next);
      forall i | 0 <= i < |rows| ensures final[i].(status := rows[i].status) == rows[i] {
        assert final[i].(status := next[i].status) == next[i];
      }
    }
  }

  /** An APPROVED booking is final: no later call changes it. */
  lemma {:induction false} ApprovedStaysApproved(rows: seq<Booking>, qs: seq<Request>, id: int)
    requires 0 <= id < |rows| && rows[id].status == Approved
    ensures id < |Replay(rows, qs)| && Replay(rows, qs)[id] == rows[id]
    decreases |qs|
  {
    if qs != [] {
      var next := Apply(rows, qs[0]);
      assert |rows| <= |next| && next[id] == rows[id];
      ApprovedStaysApproved(next, qs[1..], id);
    }
  }

  /** The service never produces CANCELED. */
  lemma {:induction false} NeverCanceled(rows: seq<Booking>, qs: seq<Request>)
    requires forall i :: 0 <= i < |rows| ==> rows[i].status != Canceled
    ensures forall i :: 0 <= i < |Replay(rows, qs)| ==>
              Replay(rows, qs)[i].status != Canceled
    decreases |qs|
  {
    if qs != [] {
      NeverCanceled(Apply(rows, qs[0]), qs[1..]);
    }
  }

  /** A booking created by the booker and then approved by the item's owner reads
      APPROVED; approving it once more fails, whoever asks. */
  lemma CreateThenApprove(rows: seq<Booking>, users: set<int>, items: seq<Item>, itemId: int,
                          userId: int, start: int, end: int, now: int, again: bool, anyone: int)
    requires AddOutcome(rows, users, items, itemId, userId, start, end, now).Ok?
    ensures var b := AddOutcome(rows, users, items, itemId, userId, start, end, now).value;
            var rows' := rows + [b];
            var a := ApproveOutcome(rows', |rows|, true, items[itemId].ownerId);
            a == Ok(b.(status := Approved)) &&
            ApproveOutcome(rows'[|rows| := a.value], |rows|, again, anyone) == Err(Validation(AlreadyApproved))
  {
  }
}
